/** compiler/gradient.cc, GenerateGradientNodesImpl: backpropagation within one graph, or from
    one graph to another that receives what it needs of the forward values as inputs. */
module GradientGraphs {
  import opened Ir
  import opened GraphIr
  import opened Builder
  import opened Dual
  import opened GradientOps
  import opened ReverseMode
  import opened Gradient
  import opened GradientReach
  import opened GradientRuns

  /** The inputs of one graph that are outputs of the other. */
  type Feeds = map<ValueId, ValueId>

  ghost predicate Fed(env: Env, feeds: Feeds) {
    forall i :: i in feeds ==> env(i) == env(feeds[i])
  }

  /** `v` leaves the forward graph as an output and enters the other, as `r`, as an input. */
  ghost predicate Crosses(forward: map<NodeId, Node>, backward: map<NodeId, Node>, feeds: Feeds, v: ValueId,
                          r: ValueId) {
    exists i :: i in feeds && Has(forward, Node(Identity, [v], [feeds[i]])) && Has(backward, Node(Identity, [i], [r]))
  }

  ghost predicate AllCross(forward: map<NodeId, Node>, backward: map<NodeId, Node>, feeds: Feeds,
                           retained: map<ValueId, ValueId>, vs: set<ValueId>) {
    forall v :: v in vs && v in retained ==> Crosses(forward, backward, feeds, v, retained[v])
  }

  /** The placeholder of a value that crosses over holds that value. */
  lemma CrossesMeans(kernels: Kernels, forward: map<NodeId, Node>, backward: map<NodeId, Node>, feeds: Feeds, env: Env,
                     v: ValueId, r: ValueId)
    requires Crosses(forward, backward, feeds, v, r) && Fed(env, feeds)
    requires Solves(kernels, forward, env) && Solves(kernels, backward, env)
    ensures env(r) == env(v)
  {
    hide Solves, Has;
    var i :| i in feeds && Has(forward, Node(Identity, [v], [feeds[i]])) && Has(backward, Node(Identity, [i], [r]));
    HasMeans(kernels, forward, env, Node(Identity, [v], [feeds[i]]));
    HasMeans(kernels, backward, env, Node(Identity, [i], [r]));
    Unary(kernels, env, Identity, v, feeds[i]);
    Unary(kernels, env, Identity, i, r);
  }

  lemma CrossedStays(forward: map<NodeId, Node>, backward: map<NodeId, Node>, feeds: Feeds,
                     forward': map<NodeId, Node>, backward': map<NodeId, Node>, feeds': Feeds,
                     retained: map<ValueId, ValueId>, vs: set<ValueId>)
    requires Within(forward, forward') && Within(backward, backward')
    requires AllCross(forward, backward, feeds, retained, vs)
    requires forall i :: i in feeds ==> i in feeds' && feeds'[i] == feeds[i]
    ensures AllCross(forward', backward', feeds', retained, vs)
  {
    forall v | v in vs && v in retained ensures Crosses(forward', backward', feeds', v, retained[v]) {
      assert Crosses(forward, backward, feeds, v, retained[v]);
      var i :| i in feeds && Has(forward, Node(Identity, [v], [feeds[i]]))
        && Has(backward, Node(Identity, [i], [retained[v]]));
      assert i in feeds';
      HasWithin(forward, forward', Node(Identity, [v], [feeds[i]]));
      HasWithin(backward, backward', Node(Identity, [i], [retained[v]]));
    }
  }

  /** A new value of `graph`, known to neither of the two graphs. */
  method NewIn(graph: Graph, other: Graph) returns (v: ValueId)
    requires graph.Valid({}) && other.Valid({})
    modifies graph`nextValue
    ensures graph.Valid({}) && graph.nextValue == v + 1 && v >= old(graph.nextValue) && v >= old(other.nextValue)
    ensures v !in graph.producer
  {
    hide DefUse, Written;
    graph.nextValue := if graph.nextValue < other.nextValue then other.nextValue else graph.nextValue;
    v := graph.AddValue({});
  }

  /** The nodes read nothing from before `border`. */
  ghost predicate ReadsFrom(node: map<NodeId, Node>, border: ValueId) {
    forall n, i :: n in node && i in node[n].inputs ==> border <= i
  }

  lemma ReadsFromMore(before: map<NodeId, Node>, after: map<NodeId, Node>, n: Node, border: ValueId)
    requires ReadsFrom(before, border) && NodesAdded(before, after, n) && Within(before, after)
    requires forall i :: i in n.inputs ==> border <= i
    ensures ReadsFrom(after, border)
  {
    forall id, i | id in after && i in after[id].inputs ensures border <= i {
      if id in before { assert after[id] == before[id]; }
    }
  }

  /** Which value of the forward graph an input of the other graph carries. */
  type Carried = map<ValueId, ValueId>

  /** Two nodes have been added for every value that has crossed, and no others. */
  ghost predicate Carriage(src0: map<NodeId, Node>, dest0: map<NodeId, Node>, src: map<NodeId, Node>,
                           dest: map<NodeId, Node>, feeds: Feeds, carried: Carried, retained: map<ValueId, ValueId>,
                           low: nat, high: nat) {
    && carried.Keys == feeds.Keys && Within(src0, src) && Within(dest0, dest)
    && (forall i :: i in carried ==> carried[i] in retained && low <= i < high && low <= feeds[i] < high)
    && (forall i, k :: i in carried && k in carried ==>
          feeds[i] != k && (i != k ==> feeds[i] != feeds[k] && carried[i] != carried[k]))
    && (forall n :: n in src && n !in src0 ==> Leaves(src[n], feeds, carried))
    && (forall n :: n in dest && n !in dest0 ==> Enters(dest[n], carried, retained))
  }

  ghost predicate Leaves(n: Node, feeds: Feeds, carried: Carried) {
    exists i :: i in carried && i in feeds && n == Node(Identity, [carried[i]], [feeds[i]])
  }

  ghost predicate Enters(n: Node, carried: Carried, retained: map<ValueId, ValueId>) {
    exists i :: i in carried && carried[i] in retained && n == Node(Identity, [i], [retained[carried[i]]])
  }

  /** Exactly the values carried leave the forward graph, each once, and none of them is written
      by a Constant node. */
  ghost predicate CrossesPlainly(src0: map<NodeId, Node>, src: map<NodeId, Node>, feeds: Feeds, carried: Carried) {
    && carried.Keys == feeds.Keys && NoneConstant(src0, carried.Values)
    && (forall i, k :: i in carried && k in carried && i != k ==> carried[i] != carried[k] && feeds[i] != feeds[k])
    && (forall n :: n in src && n !in src0 ==> Leaves(src[n], feeds, carried))
  }

  lemma CarriagePlain(src0: map<NodeId, Node>, dest0: map<NodeId, Node>, src: map<NodeId, Node>,
                      dest: map<NodeId, Node>, feeds: Feeds, carried: Carried, retained: map<ValueId, ValueId>,
                      low: nat, high: nat)
    requires Carriage(src0, dest0, src, dest, feeds, carried, retained, low, high)
    requires carried.Values == retained.Keys && NoneConstant(src0, retained.Keys)
    ensures CrossesPlainly(src0, src, feeds, carried)
  {
    hide Leaves, Enters, Within, NoneConstant;
  }

  lemma CarriageMore(src0: map<NodeId, Node>, dest0: map<NodeId, Node>, src: map<NodeId, Node>, dest: map<NodeId, Node>,
                     src': map<NodeId, Node>, dest': map<NodeId, Node>, feeds: Feeds, carried: Carried,
                     retained: map<ValueId, ValueId>, low: nat, high: nat, v: ValueId, i: ValueId, o: ValueId,
                     high': nat)
    requires Carriage(src0, dest0, src, dest, feeds, carried, retained, low, high) && v in retained
    requires v !in carried.Values
    requires low <= high <= o < i < high' && Within(src, src') && Within(dest, dest')
    requires NodesAdded(src, src', Node(Identity, [v], [o]))
    requires NodesAdded(dest, dest', Node(Identity, [i], [retained[v]]))
    ensures Carriage(src0, dest0, src', dest', feeds[i := o], carried[i := v], retained, low, high')
  {
    hide Within, NodesAdded, Leaves, Enters;
    forall k | k in carried ensures carried[k] != v && k != i { assert carried[k] in carried.Values; }
    WithinTrans(src0, src, src');
    WithinTrans(dest0, dest, dest');
    LeavesMore(src0, src, src', feeds, carried, v, i, o);
    EntersMore(dest0, dest, dest', carried, retained, v, i);
  }

  lemma LeavesMore(src0: map<NodeId, Node>, src: map<NodeId, Node>, src': map<NodeId, Node>, feeds: Feeds,
                   carried: Carried, v: ValueId, i: ValueId, o: ValueId)
    requires Within(src, src') && NodesAdded(src, src', Node(Identity, [v], [o])) && i !in carried
    requires forall n :: n in src && n !in src0 ==> Leaves(src[n], feeds, carried)
    ensures forall n :: n in src' && n !in src0 ==> Leaves(src'[n], feeds[i := o], carried[i := v])
  {
    forall n | n in src' && n !in src0 ensures Leaves(src'[n], feeds[i := o], carried[i := v]) {
      if n in src {
        assert Leaves(src[n], feeds, carried);
        var k :| k in carried && k in feeds && src[n] == Node(Identity, [carried[k]], [feeds[k]]);
        assert k in carried[i := v] && k in feeds[i := o];
      } else {
        assert i in carried[i := v];
      }
    }
  }

  lemma EntersMore(dest0: map<NodeId, Node>, dest: map<NodeId, Node>, dest': map<NodeId, Node>, carried: Carried,
                   retained: map<ValueId, ValueId>, v: ValueId, i: ValueId)
    requires v in retained && Within(dest, dest') && NodesAdded(dest, dest', Node(Identity, [i], [retained[v]]))
    requires i !in carried
    requires forall n :: n in dest && n !in dest0 ==> Enters(dest[n], carried, retained)
    ensures forall n :: n in dest' && n !in dest0 ==> Enters(dest'[n], carried[i := v], retained)
  {
    forall n | n in dest' && n !in dest0 ensures Enters(dest'[n], carried[i := v], retained) {
      if n in dest {
        assert Enters(dest[n], carried, retained);
        var k :| k in carried && carried[k] in retained && dest[n] == Node(Identity, [k], [retained[carried[k]]]);
        assert k in carried[i := v];
      } else {
        assert i in carried[i := v];
      }
    }
  }

  /** Nodes of the two graphs, with the values that have crossed so far. */
  ghost predicate Crossing(src: Graph, dest: Graph, feeds: Feeds, retained: map<ValueId, ValueId>, todo: set<ValueId>,
                           border: ValueId)
    reads src, dest
  {
    && src != dest && src.Valid({}) && dest.Valid({}) && todo <= retained.Keys && border <= dest.nextValue
    && (forall v :: v in retained ==> v < src.nextValue && retained[v] < dest.nextValue)
    && (forall v, w :: v in retained && w in retained && retained[v] == retained[w] ==> v == w)
    && (forall v :: v in todo ==> retained[v] !in dest.producer)
    && (forall i :: i in feeds ==> i < dest.nextValue)
    && AllCross(src.node, dest.node, feeds, retained, retained.Keys - todo)
    && ReadsFrom(dest.node, border)
  }

  /** The larger of the two next values. */
  function Top(src: Graph, dest: Graph): nat
    reads src`nextValue, dest`nextValue
  {
    if src.nextValue < dest.nextValue then dest.nextValue else src.nextValue
  }

  method CrossOne(src: Graph, dest: Graph, feeds: Feeds, ghost carried: Carried, retained: map<ValueId, ValueId>,
                  ghost todo: set<ValueId>, ghost border: ValueId, ghost src0: map<NodeId, Node>,
                  ghost dest0: map<NodeId, Node>, ghost low: nat, v: ValueId)
    returns (feeds': Feeds, ghost carried': Carried)
    requires Crossing(src, dest, feeds, retained, todo, border) && v in todo && carried.Values == retained.Keys - todo
    requires Carriage(src0, dest0, src.node, dest.node, feeds, carried, retained, low, Top(src, dest))
    requires low <= Top(src, dest)
    modifies src, dest
    ensures Crossing(src, dest, feeds', retained, todo - {v}, border) && carried'.Values == retained.Keys - (todo - {v})
    ensures Carriage(src0, dest0, src.node, dest.node, feeds', carried', retained, low, Top(src, dest))
    ensures low <= Top(src, dest)
    ensures Within(old(src.node), src.node) && Within(old(dest.node), dest.node)
  {
    hide DefUse, Written, Below, ReadsFrom, AllCross, NodesAdded, Has, Carriage, Within;
    ghost var high := Top(src, dest);
    var o := NewIn(src, dest);
    EmitTo(src, Identity, [v], o);
    var i := NewIn(dest, src);
    EmitTo(dest, Identity, [i], retained[v]);
    feeds' := feeds[i := o];
    CarriesKeys(src0, dest0, old(src.node), old(dest.node), feeds, carried, retained, low, high, i);
    carried' := carried[i := v];
    CarriageMore(src0, dest0, old(src.node), old(dest.node), src.node, dest.node, feeds, carried, retained, low, high,
                 v, i, o, Top(src, dest));
    MoreValues(carried, i, v);
    assert retained.Keys - (todo - {v}) == (retained.Keys - todo) + {v};
    ReadsFromMore(old(dest.node), dest.node, Node(Identity, [i], [retained[v]]), border);
    CrossedStays(old(src.node), old(dest.node), feeds, src.node, dest.node, feeds', retained, retained.Keys - todo);
    CrossedMore(src.node, dest.node, feeds', retained, todo, v, i);
  }

  lemma CarriesKeys(src0: map<NodeId, Node>, dest0: map<NodeId, Node>, src: map<NodeId, Node>, dest: map<NodeId, Node>,
                    feeds: Feeds, carried: Carried, retained: map<ValueId, ValueId>, low: nat, high: nat, i: ValueId)
    requires Carriage(src0, dest0, src, dest, feeds, carried, retained, low, high) && high <= i
    ensures i !in carried
  {
  }

  lemma MoreValues(m: map<ValueId, ValueId>, i: ValueId, v: ValueId)
    requires i !in m
    ensures m[i := v].Values == m.Values + {v}
  {
    assert m[i := v][i] == v;
    forall w | w in m.Values ensures w in m[i := v].Values {
      var k :| k in m && m[k] == w;
      assert m[i := v][k] == w;
    }
  }

  lemma CrossedMore(forward: map<NodeId, Node>, backward: map<NodeId, Node>, feeds: Feeds,
                    retained: map<ValueId, ValueId>, todo: set<ValueId>, v: ValueId, i: ValueId)
    requires v in retained && v in todo && todo <= retained.Keys && i in feeds
    requires Has(forward, Node(Identity, [v], [feeds[i]])) && Has(backward, Node(Identity, [i], [retained[v]]))
    requires AllCross(forward, backward, feeds, retained, retained.Keys - todo)
    ensures AllCross(forward, backward, feeds, retained, retained.Keys - (todo - {v}))
  {
    forall w | w in retained.Keys - (todo - {v}) && w in retained
      ensures Crosses(forward, backward, feeds, w, retained[w])
    {
      if w != v { assert w in retained.Keys - todo; }
    }
  }

  /** The retained values become outputs of `src` and inputs of `dest`, each once, in any order. */
  method RetainOutputs(src: Graph, dest: Graph, retained: map<ValueId, ValueId>, ghost border: ValueId)
    returns (feeds: Feeds, ghost carried: Carried)
    requires Crossing(src, dest, map[], retained, retained.Keys, border)
    modifies src, dest
    ensures Crossing(src, dest, feeds, retained, {}, border) && carried.Values == retained.Keys
    ensures Carriage(old(src.node), old(dest.node), src.node, dest.node, feeds, carried, retained, old(Top(src, dest)),
                     Top(src, dest))
    ensures Within(old(src.node), src.node) && Within(old(dest.node), dest.node)
  {
    hide Crossing, Carriage;
    var todo := retained.Keys;
    feeds, carried := map[], map[];
    ghost var low := Top(src, dest);
    NothingCarried(src.node, dest.node, retained, low);
    while todo != {}
      modifies src, dest
      invariant Crossing(src, dest, feeds, retained, todo, border) && carried.Values == retained.Keys - todo
      invariant Carriage(old(src.node), old(dest.node), src.node, dest.node, feeds, carried, retained, low,
                         Top(src, dest))
      invariant low <= Top(src, dest)
      invariant Within(old(src.node), src.node) && Within(old(dest.node), dest.node)
      decreases todo
    {
      var v :| v in todo;
      feeds, carried := CrossOne(src, dest, feeds, carried, retained, todo, border, old(src.node), old(dest.node), low,
                                 v);
      todo := todo - {v};
    }
  }

  lemma NothingCarried(src: map<NodeId, Node>, dest: map<NodeId, Node>, retained: map<ValueId, ValueId>, low: nat)
    ensures Carriage(src, dest, src, dest, map[], map[], retained, low, low)
  {
  }

  /** New inputs that hold the gradients of `ys`. */
  method AddGradientInputs(dest: Graph, ys: seq<ValueId>) returns (grad: Grads)
    requires dest.Valid({})
    modifies dest`nextValue
    ensures dest.Valid({}) && old(dest.nextValue) <= dest.nextValue
    ensures grad.Keys == SetOf(ys) && AllWithin(grad, old(dest.nextValue), dest.nextValue)
    ensures forall y, z :: y in grad && z in grad && grad[y] == grad[z] ==> y == z
  {
    hide DefUse, Written, Below, Distinct;
    grad := map[];
    var i := 0;
    while i < |ys|
      invariant 0 <= i <= |ys| && dest.Valid({}) && old(dest.nextValue) <= dest.nextValue
      invariant grad.Keys == SetOf(ys[..i]) && AllWithin(grad, old(dest.nextValue), dest.nextValue)
      invariant forall y, z :: y in grad && z in grad && grad[y] == grad[z] ==> y == z
    {
      var v := dest.AddValue({});
      assert ys[..i + 1] == ys[..i] + [ys[i]];
      grad := grad[ys[i] := v];
      i := i + 1;
    }
    assert ys[..i] == ys;
  }

  /** In every joint run of the two graphs the gradients are the adjoint of the tangents. */
  ghost predicate Backpropagates(forward: map<NodeId, Node>, backward: map<NodeId, Node>, feeds: Feeds, g: Snapshot,
                                 first: Grads, grad: Grads, xs: seq<ValueId>, ys: seq<ValueId>) {
    forall kernels: Kernels, env: Env, tan: ValueId -> Number ::
      Solves(kernels, forward, env) && Solves(kernels, backward, env) && Fed(env, feeds) && Tangents(g, xs, env,
             tan) ==>
        Inner(ys, Gradients(env, first), tan) == Inner(xs, Gradients(env, grad), tan)
  }

  /** Every joint run of the graphs as they are now is consistent for the graphs before the crossing. */
  lemma JointRunIsConsistent(kernels: Kernels, forward: map<NodeId, Node>, backward: map<NodeId, Node>, feeds: Feeds,
                             g: Snapshot, node: map<NodeId, Node>, retained: map<ValueId, ValueId>, env: Env)
    requires Within(g.node, forward) && Within(node, backward)
    requires AllCross(forward, backward, feeds, retained, retained.Keys)
    requires Solves(kernels, forward, env) && Solves(kernels, backward, env) && Fed(env, feeds)
    ensures Consistent(kernels, node, g.node, retained, env)
  {
    hide Solves, Fed, Crosses, Within;
    SolvesWithin(kernels, g.node, forward, env);
    SolvesWithin(kernels, node, backward, env);
    forall v | v in retained ensures env(retained[v]) == env(v) {
      CrossesMeans(kernels, forward, backward, feeds, env, v, retained[v]);
    }
  }

  lemma AdjointAcross(forward: map<NodeId, Node>, backward: map<NodeId, Node>, feeds: Feeds, g: Snapshot,
                      node: map<NodeId, Node>, retained: map<ValueId, ValueId>, first: Grads, grad: Grads,
                      xs: seq<ValueId>, ys: seq<ValueId>)
    requires Within(g.node, forward) && Within(node, backward)
    requires AllCross(forward, backward, feeds, retained, retained.Keys)
    requires IsAdjoint(node, g, retained, first, grad, xs, ys)
    ensures Backpropagates(forward, backward, feeds, g, first, grad, xs, ys)
  {
    hide Solves, Fed, Within, AllCross, Tangents, Inner, Consistent;
    forall kernels: Kernels, env: Env, tan: ValueId -> Number
      | Solves(kernels, forward, env) && Solves(kernels, backward, env) && Fed(env, feeds) && Tangents(g, xs, env, tan)
      ensures Inner(ys, Gradients(env, first), tan) == Inner(xs, Gradients(env, grad), tan)
    {
      JointRunIsConsistent(kernels, forward, backward, feeds, g, node, retained, env);
    }
  }

  // ---- joint runs of two graphs exist ----

  /** `env` with the two ends of every crossing holding the value that crosses. */
  ghost function Delivered(env: Env, feeds: Feeds, carried: Carried): Env
    requires carried.Keys == feeds.Keys
  {
    (w: ValueId) => env(SentBy(feeds, carried, w))
  }

  ghost function SentBy(feeds: Feeds, carried: Carried, w: ValueId): (v: ValueId)
    requires carried.Keys == feeds.Keys
    ensures w in carried ==> v == carried[w]
    ensures w !in carried && w !in feeds.Values ==> v == w
    ensures w !in carried && w in feeds.Values ==> exists i :: i in feeds && feeds[i] == w && v == carried[i]
  {
    if w in carried then carried[w]
    else if w in feeds.Values then var i :| i in feeds && feeds[i] == w; carried[i]
    else w
  }

  lemma DeliveredMeans(env: Env, src0: map<NodeId, Node>, dest0: map<NodeId, Node>, src: map<NodeId, Node>,
                       dest: map<NodeId, Node>, feeds: Feeds, carried: Carried, retained: map<ValueId, ValueId>,
                       low: nat, high: nat)
    requires Carriage(src0, dest0, src, dest, feeds, carried, retained, low, high)
    ensures AgreeBelow(env, Delivered(env, feeds, carried), low) && Fed(Delivered(env, feeds, carried), feeds)
    ensures forall i :: i in carried ==> Delivered(env, feeds, carried)(i) == env(carried[i])
    ensures forall i :: i in carried ==> i in feeds && Delivered(env, feeds, carried)(feeds[i]) == env(carried[i])
  {
    var env' := Delivered(env, feeds, carried);
    ValuesAbove(feeds, low);
    forall w: ValueId | w < low ensures env(w) == env'(w) {
      var v := SentBy(feeds, carried, w);
    }
    forall i | i in carried ensures env'(i) == env(carried[i]) && env'(feeds[i]) == env(carried[i]) {
      var u, v := SentBy(feeds, carried, i), SentBy(feeds, carried, feeds[i]);
      assert feeds[i] in feeds.Values;
    }
  }

  lemma ValuesAbove(feeds: Feeds, low: nat)
    requires forall i :: i in feeds ==> low <= feeds[i]
    ensures forall w :: w in feeds.Values ==> low <= w
  {
  }

  /** A run with the placeholders filled in becomes a run of both graphs with all that crosses. */
  lemma DeliveredRuns(kernels: Kernels, g: Snapshot, mid: map<NodeId, Node>, src: map<NodeId, Node>,
                      dest: map<NodeId, Node>, feeds: Feeds, carried: Carried, retained: map<ValueId, ValueId>,
                      low: nat, high: nat, env: Env)
    requires Carriage(g.node, mid, src, dest, feeds, carried, retained, low, high)
    requires Consistent(kernels, mid, g.node, retained, env)
    requires NodesBelow(g.node, low) && NodesBelow(mid, low)
    requires forall v :: v in retained ==> v < low && retained[v] < low
    ensures Solves(kernels, src, Delivered(env, feeds, carried))
    ensures Solves(kernels, dest, Delivered(env, feeds, carried))
  {
    hide Delivered, Holds, Within, NodesBelow, Leaves, Enters;
    var env' := Delivered(env, feeds, carried);
    DeliveredMeans(env, g.node, mid, src, dest, feeds, carried, retained, low, high);
    SolvesAlike(kernels, g.node, env, env', low);
    SolvesAlike(kernels, mid, env, env', low);
    WithinSame(g.node, src);
    WithinSame(mid, dest);
    forall n | n in src ensures Holds(kernels, src[n], env') {
      if n !in g.node { LeavesHolds(kernels, src[n], feeds, carried, retained, env, env', low); }
    }
    forall n | n in dest ensures Holds(kernels, dest[n], env') {
      if n !in mid { EntersHolds(kernels, dest[n], carried, retained, env, env', low); }
    }
  }

  lemma WithinSame(node: map<NodeId, Node>, more: map<NodeId, Node>)
    requires Within(node, more)
    ensures forall n :: n in node ==> n in more && more[n] == node[n]
  {
  }

  lemma LeavesHolds(kernels: Kernels, n: Node, feeds: Feeds, carried: Carried, retained: map<ValueId, ValueId>,
                    env: Env, env': Env, low: nat)
    requires Leaves(n, feeds, carried) && AgreeBelow(env, env', low)
    requires forall i :: i in carried ==> carried[i] in retained && i in feeds && env'(feeds[i]) == env(carried[i])
    requires forall v :: v in retained ==> v < low
    ensures Holds(kernels, n, env')
  {
    hide Holds;
    var i :| i in carried && i in feeds && n == Node(Identity, [carried[i]], [feeds[i]]);
    IdentityHolds(kernels, env', carried[i], feeds[i]);
  }

  lemma EntersHolds(kernels: Kernels, n: Node, carried: Carried, retained: map<ValueId, ValueId>, env: Env, env': Env,
                    low: nat)
    requires Enters(n, carried, retained) && AgreeBelow(env, env', low)
    requires forall i :: i in carried ==> env'(i) == env(carried[i])
    requires forall v :: v in retained ==> v < low && retained[v] < low && env(retained[v]) == env(v)
    ensures Holds(kernels, n, env')
  {
    hide Holds;
    var i :| i in carried && carried[i] in retained && n == Node(Identity, [i], [retained[carried[i]]]);
    IdentityHolds(kernels, env', i, retained[carried[i]]);
  }

  /** Every run of the forward graph, together with one of what was in the other graph before,
      continues as a joint run of both, with the values below `base` as they are. */
  ghost predicate JointlyRunsOn(forward: map<NodeId, Node>, first: map<NodeId, Node>, src: map<NodeId, Node>,
                                dest: map<NodeId, Node>, feeds: Feeds, base: nat) {
    forall kernels: Kernels, env: Env :: Solves(kernels, forward, env) && Solves(kernels, first, env) ==>
      JointlyContinues(kernels, src, dest, feeds, env, base)
  }

  ghost predicate JointlyContinues(kernels: Kernels, src: map<NodeId, Node>, dest: map<NodeId, Node>, feeds: Feeds,
                                   env: Env, base: nat) {
    exists env': Env :: Solves(kernels, src, env') && Solves(kernels, dest, env') && Fed(env', feeds)
      && AgreeBelow(env, env', base)
  }

  /** So gradient nodes in a graph of their own do not get stuck either. */
  lemma JointRunExists(g: Snapshot, first: map<NodeId, Node>, mid: map<NodeId, Node>, producer: map<ValueId, NodeId>,
                       retained: map<ValueId, ValueId>, src: map<NodeId, Node>, dest: map<NodeId, Node>, feeds: Feeds,
                       carried: Carried, base: nat, low: nat, high: nat)
    requires Graphs(g, first, mid, producer, retained, base) && base <= low && NodesBelow(mid, low)
    requires Carriage(g.node, mid, src, dest, feeds, carried, retained, low, high)
    requires NodesBelow(g.node, low) && forall v :: v in retained ==> v < low && retained[v] < low
    ensures JointlyRunsOn(g.node, first, src, dest, feeds, base)
  {
    hide Graphs, Solves, NodesBelow, Carriage, Delivered, Fed;
    forall kernels: Kernels, env: Env | Solves(kernels, g.node, env) && Solves(kernels, first, env)
      ensures JointlyContinues(kernels, src, dest, feeds, env, base)
    {
      var mine := RunExtends(kernels, g, first, mid, producer, retained, env, base, low);
      CarriageKeys(g.node, mid, src, dest, feeds, carried, retained, low, high);
      DeliveredRuns(kernels, g, mid, src, dest, feeds, carried, retained, low, high, mine);
      DeliveredMeans(mine, g.node, mid, src, dest, feeds, carried, retained, low, high);
      assert AgreeBelow(env, Delivered(mine, feeds, carried), base);
    }
  }

  lemma CarriageKeys(src0: map<NodeId, Node>, dest0: map<NodeId, Node>, src: map<NodeId, Node>, dest: map<NodeId, Node>,
                     feeds: Feeds, carried: Carried, retained: map<ValueId, ValueId>, low: nat, high: nat)
    requires Carriage(src0, dest0, src, dest, feeds, carried, retained, low, high)
    ensures carried.Keys == feeds.Keys
  {
  }

  /** After the gradient nodes have been made, the retained values are ready to cross. */
  lemma ReadyToCross(src: Graph, gc: GradientContext, ids: seq<NodeId>)
    requires gc.Ok() && gc.twoGraphs && src != gc.graph && src.Valid({}) && src.nextValue == gc.border
    requires src.node == gc.g.node && RetainedByAll(gc.g, map[], gc.retained, true, ids)
    requires ReadsFrom(gc.first, gc.border) && Within(gc.first, gc.graph.node)
    ensures Crossing(src, gc.graph, map[], gc.retained, gc.retained.Keys, gc.border)
  {
    hide DefUse, Written;
    forall v | v in gc.retained ensures v < src.nextValue {
      assert ReadBy(gc.g, ids, v);
    }
    forall n, i | n in gc.graph.node && i in gc.graph.node[n].inputs ensures gc.border <= i {
      if n in gc.first { assert gc.graph.node[n] == gc.first[n]; }
    }
  }

  lemma NothingToCross(forward: map<NodeId, Node>, backward: map<NodeId, Node>)
    ensures Within(backward, backward) && AllCross(forward, backward, map[], map[], {})
  {
  }

  /** What GenerateGradientNodesImpl may be called with. */
  ghost predicate Fitted(src: Graph, dest: Graph, nulls: set<ValueId>, inputs: seq<ValueId>,
                         xs: seq<ValueId>, ys: seq<ValueId>)
    reads src, dest
  {
    && src.Valid({}) && dest.Valid({}) && src.nextValue <= dest.nextValue
    && (src != dest ==> ReadsFrom(dest.node, src.nextValue))
    && Complete(Snapshot(src.node, src.users, src.producer, nulls), inputs)
    && Fitting(Snapshot(src.node, src.users, src.producer, nulls)) && Listed(src)
    && Distinct(ys) && AllIn(xs, src.nextValue) && AllIn(ys, src.nextValue)
  }

  /** The first steps: gradient inputs and a context. */
  method Begin(src: Graph, dest: Graph, nulls: set<ValueId>, ghost inputs: seq<ValueId>,
               ghost xs: seq<ValueId>, ys: seq<ValueId>) returns (gc: GradientContext)
    requires Fitted(src, dest, nulls, inputs, xs, ys)
    modifies dest`nextValue
    ensures fresh(gc) && gc.Ok() && gc.graph == dest && gc.twoGraphs == (src != dest) && gc.retained == map[]
    ensures gc.g == old(Snapshot(src.node, src.users, src.producer, nulls))
    ensures gc.first == old(dest.node) && gc.grad.Keys == SetOf(ys) && gc.base == dest.nextValue >= old(dest.nextValue)
    ensures gc.border == if src == dest then 0 else old(src.nextValue)
    ensures NodesBelow(gc.first, gc.base) && AllWithin(gc.grad, old(dest.nextValue), gc.base)
    ensures forall y, z :: y in gc.grad && z in gc.grad && gc.grad[y] == gc.grad[z] ==> y == z
    ensures AllIn(xs, dest.nextValue) && AllIn(ys, dest.nextValue)
    ensures src.Valid({}) && NodesBelow(gc.g.node, gc.base)
  {
    hide DefUse, Fitting, ReadsFrom;
    var border := if src == dest then 0 else src.nextValue;
    var g := Snapshot(src.node, src.users, src.producer, nulls);
    var before := dest.nextValue;
    var grad := AddGradientInputs(dest, ys);
    WithinLater(grad, before, border, dest.nextValue);
    SnapshotSsa(src, g);
    gc := new GradientContext(dest, g, src != dest, border, grad);
  }

  lemma WithinLater(grad: Grads, before: nat, border: nat, bound: nat)
    requires AllWithin(grad, before, bound) && border <= before
    ensures AllWithin(grad, border, bound)
  {
  }

  lemma SnapshotSsa(src: Graph, g: Snapshot)
    requires src.Valid({}) && g.node == src.node && g.producer == src.producer
    ensures NodesBelow(g.node, src.nextValue)
  {
  }

  lemma GradsBelow(gc: GradientContext)
    requires gc.Ok()
    ensures forall y :: y in gc.grad ==> gc.grad[y] < gc.graph.nextValue
  {
    hide DefUse, Written, Below;
  }

  lemma OneGraphRuns(gc: GradientContext)
    requires gc.Ok() && !gc.twoGraphs && gc.first == gc.g.node && NodesBelow(gc.g.node, gc.base)
    requires Within(gc.first, gc.graph.node)
    ensures RunsOn(gc.g.node, gc.graph.node, gc.base)
  {
    hide DefUse, Newer, AllSound, AllWithin, RunsOn;
    NewerAnyway(gc.first, gc.graph.node, gc.base, gc.border);
    AlwaysExtends(gc.g, gc.graph.node, gc.graph.producer, gc.base, gc.graph.nextValue);
  }

  /** What the context knows of the two graphs before anything crosses. */
  lemma GraphsKnown(src: Graph, gc: GradientContext, ids: seq<NodeId>)
    requires gc.Ok() && gc.twoGraphs && src.Valid({}) && src.node == gc.g.node && src.nextValue == gc.border
    requires RetainedByAll(gc.g, map[], gc.retained, true, ids) && NodesBelow(gc.first, gc.base)
    requires Within(gc.first, gc.graph.node)
    ensures Graphs(gc.g, gc.first, gc.graph.node, gc.graph.producer, gc.retained, gc.base)
    ensures gc.base <= gc.graph.nextValue && NodesBelow(gc.graph.node, gc.graph.nextValue)
    ensures NodesBelow(gc.g.node, gc.graph.nextValue)
    ensures forall v :: v in gc.retained ==> v < gc.graph.nextValue && gc.retained[v] < gc.graph.nextValue
    ensures src.nextValue <= gc.graph.nextValue
  {
    hide DefUse, Newer, AllSound, Within;
    NewerAnyway(gc.first, gc.graph.node, gc.base, gc.border);
    forall v | v in gc.retained ensures v < src.nextValue {
      assert ReadBy(gc.g, ids, v);
    }
    forall n | n in gc.g.node ensures BelowNode(gc.g.node[n], gc.base) { assert BelowNode(src.node[n], src.nextValue); }
  }

  lemma OneGraphAcyclic(gc: GradientContext, inputs: seq<ValueId>, nulls: set<ValueId>)
    requires gc.Ok() && gc.first == gc.g.node && gc.g.nulls == nulls && NodesBelow(gc.g.node, gc.base)
    requires Complete(gc.g, inputs) && Within(gc.first, gc.graph.node)
    ensures Snapshot(gc.graph.node, gc.graph.users, gc.graph.producer, nulls).AcyclicOn(gc.graph.node.Keys)
  {
    hide DefUse, Written, Below, Newer, AllSound, Within, NodesBelow;
    GradientNodesCloseNoCycle(gc.g, Snapshot(gc.graph.node, gc.graph.users, gc.graph.producer, nulls), gc.base,
                              gc.border);
  }

  // ---- no cycle ----

  ghost predicate RanksBelow(nodes: set<NodeId>, rank: map<NodeId, nat>, top: nat) {
    forall n :: n in nodes && n in rank ==> rank[n] < top
  }

  lemma {:induction false} RankBound(nodes: set<NodeId>, rank: map<NodeId, nat>) returns (top: nat)
    ensures RanksBelow(nodes, rank, top)
  {
    if nodes == {} { return 0; }
    var n :| n in nodes;
    top := RankBound(nodes - {n}, rank);
    if n in rank && rank[n] >= top { top := rank[n] + 1; }
    assert forall m :: m in nodes ==> m in nodes - {n} || m == n;
  }

  /** Gradient nodes read only older values, so they close no cycle, whatever order they were added in. */
  lemma GradientNodesCloseNoCycle(g: Snapshot, after: Snapshot, base: ValueId, border: ValueId)
    requires g.AcyclicOn(g.node.Keys) && NodesBelow(g.node, base) && g.nulls == after.nulls
    requires Within(g.node, after.node) && Newer(g.node, after.node, base, border)
    ensures after.AcyclicOn(after.node.Keys)
  {
    var rank :| g.Ranks(g.node.Keys, rank);
    var top := RankBound(g.node.Keys, rank);
    var more := map n | n in after.node :: if n in g.node then rank[n] else top + after.node[n].outputs[0];
    forall a, b | a in after.node && b in after.node && after.Edge(a, b) ensures more[a] < more[b] {
      var v :| v in after.node[b].inputs && v !in after.nulls && v in after.node[a].outputs;
      assert b in g.node ==> v < base;
      if a in g.node && b in g.node { assert g.Edge(a, b); }
    }
    assert after.Ranks(after.node.Keys, more);
  }

  method GenerateGradientNodesImpl(src: Graph, dest: Graph, nulls: set<ValueId>, inputs: seq<ValueId>,
                                   xs: seq<ValueId>, ys: seq<ValueId>)
    returns (first: Grads, grad: Grads, feeds: Feeds, ghost base: nat, ghost carried: Carried)
    requires Fitted(src, dest, nulls, inputs, xs, ys)
    modifies src, dest
    ensures src.Valid({}) && dest.Valid({}) && Within(old(src.node), src.node) && Within(old(dest.node), dest.node)
    ensures Independent(old(Snapshot(src.node, src.users, src.producer, nulls)), xs) ==>
      Backpropagates(src.node, dest.node, feeds, old(Snapshot(src.node, src.users, src.producer, nulls)), first, grad,
                     xs, ys)
    // Of `xs` exactly the values that some output depends on get a gradient.
    ensures AllReach(old(src.node), grad, xs, ys)
    ensures first.Keys == SetOf(ys) && (src == dest ==> feeds == map[])
    // Nothing that crosses over is a constant: those are copied.
    ensures src != dest ==> CrossesPlainly(old(src.node), src.node, feeds, carried)
    ensures src != dest ==> ReadsFrom(dest.node, old(src.nextValue))
    ensures src == dest ==> Snapshot(src.node, src.users, src.producer, nulls).AcyclicOn(src.node.Keys)
    // Runs continue, with any gradients of the outputs: the values of `first` are below `base`.
    ensures old(src.nextValue) <= base
    ensures forall y, z :: y in first && z in first && first[y] == first[z] ==> y == z
    ensures AllWithin(first, old(dest.nextValue), base)
    ensures src == dest ==> RunsOn(old(src.node), src.node, base)
    ensures src != dest ==> JointlyRunsOn(old(src.node), old(dest.node), src.node, dest.node, feeds, base)
  {
    hide DefUse, Written, Below, Complete, Fitting, ReadsFrom, Independent, IsAdjoint, Backpropagates, Follows,
      RetainedByAll;
    hide Within, Grown, NodesBelow, Newer, AllSound, Placeholders, AllWithin, Chosen, AllCross, Carriage, JointlyRunsOn,
      RunsOn, Touched, AllReach, CrossesPlainly;
    ghost var g := Snapshot(src.node, src.users, src.producer, nulls);
    var live := GetLiveNodes(src);
    var gc := Begin(src, dest, nulls, inputs, xs, ys);
    first, base := gc.grad, gc.base;
    GradsBelow(gc);
    ghost var ids: seq<NodeId>, needed: set<NodeId>;
    ids, needed := GenerateGradientNodes(gc, inputs, live, xs, ys);
    grad := gc.grad;
    feeds, carried := map[], map[];
    AllReachNow(g, inputs, xs, ys, needed, ids, first, grad);
    ghost var node := dest.node;
    GrownIsWithin(gc.first, map[], node, gc.retained);
    NothingToCross(src.node, node);
    if src != dest {
      feeds, carried := CrossAll(src, gc, ids);
      WithinTrans(gc.first, node, dest.node);
    } else {
      assert gc.retained == map[] && gc.retained.Keys == {};
      assert AllCross(src.node, dest.node, feeds, gc.retained, gc.retained.Keys);
      OneGraphAcyclic(gc, inputs, nulls);
      OneGraphRuns(gc);
    }
    if Independent(g, xs) {
      AdjointAcross(src.node, dest.node, feeds, g, node, gc.retained, first, grad, xs, ys);
    }
  }

  /** The loop over the retained values. */
  method CrossAll(src: Graph, gc: GradientContext, ghost ids: seq<NodeId>)
    returns (feeds: Feeds, ghost carried: Carried)
    requires gc.Ok() && gc.twoGraphs && src != gc.graph && src.Valid({}) && src.nextValue == gc.border
    requires src.node == gc.g.node
    requires RetainedByAll(gc.g, map[], gc.retained, true, ids) && ReadsFrom(gc.first, gc.border)
    requires NodesBelow(gc.first, gc.base) && Within(gc.first, gc.graph.node)
    modifies src, gc.graph
    ensures src.Valid({}) && gc.graph.Valid({}) && Within(old(src.node), src.node)
    ensures Within(old(gc.graph.node), gc.graph.node)
    ensures ReadsFrom(gc.graph.node, gc.border) && CrossesPlainly(old(src.node), src.node, feeds, carried)
    ensures AllCross(src.node, gc.graph.node, feeds, gc.retained, gc.retained.Keys)
    ensures JointlyRunsOn(old(src.node), gc.first, src.node, gc.graph.node, feeds, gc.base)
  {
    hide DefUse, Written, Below, ReadsFrom, RetainedByAll, Within, NodesBelow, Newer, AllSound, Placeholders, AllWithin,
      AllCross;
    hide Carriage, CrossesPlainly, NoneConstant, JointlyRunsOn, Graphs;
    ghost var mid, producer, low := gc.graph.node, gc.graph.producer, gc.graph.nextValue;
    ReadyToCross(src, gc, ids);
    GraphsKnown(src, gc, ids);
    feeds, carried := RetainOutputs(src, gc.graph, gc.retained, gc.border);
    assert gc.retained.Keys - {} == gc.retained.Keys;
    CarriagePlain(gc.g.node, mid, src.node, gc.graph.node, feeds, carried, gc.retained, low, Top(src, gc.graph));
    JointRunExists(gc.g, gc.first, mid, producer, gc.retained, src.node, gc.graph.node, feeds, carried, gc.base, low,
                   Top(src, gc.graph));
  }
}
