/** compiler/gradient_with_order.cc: every run of the forward graph goes on through recomputations,
    copied constants and placeholders, so none of what is proved of such runs is about nothing. */
module OrderRuns {
  import opened Ir
  import opened GraphIr
  import opened Builder
  import opened GradientOps
  import opened GradientRuns
  import opened GradientGraphs
  import opened OrderMeaning

  ghost predicate Extends(before: Values, after: Values) {
    forall v :: v in before ==> v in after && after[v] == before[v]
  }

  /** What is new guards itself. */
  ghost predicate OnlyGuards(before: Values, after: Values) {
    forall v :: v in after && v !in before ==> after[v] == v
  }

  lemma NoGuards(retained: Values)
    ensures OnlyGuards(retained, retained)
  {
  }

  lemma GuardsMore(before: Values, retained: Values, v: ValueId)
    requires OnlyGuards(before, retained)
    ensures OnlyGuards(before, retained[v := v])
  {
  }

  /** Nodes and retained values use no value from `bound` on. */
  ghost predicate Bounded(forward: map<NodeId, Node>, node: map<NodeId, Node>, retained: Values, bound: nat) {
    && NodesBelow(forward, bound) && NodesBelow(node, bound)
    && forall v :: v in retained ==> v < bound && retained[v] < bound
  }

  /** Every run before is one after, but for new values. */
  ghost predicate Goes(forward: map<NodeId, Node>, node: map<NodeId, Node>, retained: Values,
                       node': map<NodeId, Node>, retained': Values, bound: nat) {
    forall kernels: Kernels, env: Env :: Consistent(kernels, node, forward, retained, env) ==>
      GoesOn(kernels, forward, node', retained', env, bound)
  }

  ghost predicate GoesOn(kernels: Kernels, forward: map<NodeId, Node>, node: map<NodeId, Node>, retained: Values,
                         env: Env, bound: nat) {
    exists env': Env :: Consistent(kernels, node, forward, retained, env') && AgreeBelow(env, env', bound)
  }

  lemma GoesNowhere(forward: map<NodeId, Node>, node: map<NodeId, Node>, retained: Values, bound: nat)
    ensures Goes(forward, node, retained, node, retained, bound)
  {
    hide Consistent;
    forall kernels: Kernels, env: Env | Consistent(kernels, node, forward, retained, env)
      ensures GoesOn(kernels, forward, node, retained, env, bound)
    {
      assert AgreeBelow(env, env, bound);
    }
  }

  lemma AgreeTrans(a: Env, b: Env, c: Env, low: nat, high: nat)
    requires AgreeBelow(a, b, low) && AgreeBelow(b, c, high) && low <= high
    ensures AgreeBelow(a, c, low)
  {
  }

  /** The run that goes on. */
  lemma Next(kernels: Kernels, forward: map<NodeId, Node>, a: map<NodeId, Node>, ra: Values, b: map<NodeId, Node>,
             rb: Values, env: Env, bound: nat)
    returns (env': Env)
    requires Goes(forward, a, ra, b, rb, bound) && Consistent(kernels, a, forward, ra, env)
    ensures Consistent(kernels, b, forward, rb, env') && AgreeBelow(env, env', bound)
  {
    hide Consistent, AgreeBelow;
    assert GoesOn(kernels, forward, b, rb, env, bound);
    env' :| Consistent(kernels, b, forward, rb, env') && AgreeBelow(env, env', bound);
  }

  lemma GoesBy(kernels: Kernels, forward: map<NodeId, Node>, node: map<NodeId, Node>, retained: Values, env: Env,
               env': Env, bound: nat)
    requires Consistent(kernels, node, forward, retained, env') && AgreeBelow(env, env', bound)
    ensures GoesOn(kernels, forward, node, retained, env, bound)
  {
    hide Consistent, AgreeBelow;
  }

  lemma NextOfNext(kernels: Kernels, forward: map<NodeId, Node>, a: map<NodeId, Node>, ra: Values, b: map<NodeId, Node>,
                   rb: Values, c: map<NodeId, Node>, rc: Values, env: Env, low: nat, high: nat)
    requires Goes(forward, a, ra, b, rb, low) && Goes(forward, b, rb, c, rc, high) && low <= high
    requires Consistent(kernels, a, forward, ra, env)
    ensures GoesOn(kernels, forward, c, rc, env, low)
  {
    hide Consistent, AgreeBelow, Goes, GoesOn;
    var between := Next(kernels, forward, a, ra, b, rb, env, low);
    var after := Next(kernels, forward, b, rb, c, rc, between, high);
    AgreeTrans(env, between, after, low, high);
    GoesBy(kernels, forward, c, rc, env, after, low);
  }

  lemma GoesTrans(forward: map<NodeId, Node>, a: map<NodeId, Node>, ra: Values, b: map<NodeId, Node>, rb: Values,
                  c: map<NodeId, Node>, rc: Values, low: nat, high: nat)
    requires Goes(forward, a, ra, b, rb, low) && Goes(forward, b, rb, c, rc, high) && low <= high
    ensures Goes(forward, a, ra, c, rc, low)
  {
    hide Consistent, GoesOn;
    forall kernels: Kernels, env: Env | Consistent(kernels, a, forward, ra, env)
      ensures GoesOn(kernels, forward, c, rc, env, low)
    {
      NextOfNext(kernels, forward, a, ra, b, rb, c, rc, env, low, high);
    }
  }

  /** A run stays one when only unused values change. */
  lemma StaysConsistent(kernels: Kernels, forward: map<NodeId, Node>, node: map<NodeId, Node>, retained: Values,
                        env: Env, env': Env, bound: nat)
    requires Consistent(kernels, node, forward, retained, env) && Bounded(forward, node, retained, bound)
    requires AgreeBelow(env, env', bound)
    ensures Consistent(kernels, node, forward, retained, env')
  {
    hide Solves, NodesBelow;
    SolvesAlike(kernels, node, env, env', bound);
    SolvesAlike(kernels, forward, env, env', bound);
  }

  lemma HoldGoes(forward: map<NodeId, Node>, node: map<NodeId, Node>, retained: Values, v: ValueId, r: ValueId)
    requires Bounded(forward, node, retained, r) && v < r && v !in retained
    ensures Goes(forward, node, retained, node, retained[v := r][r := r], r)
  {
    hide Solves, Bounded;
    forall kernels: Kernels, env: Env | Consistent(kernels, node, forward, retained, env)
      ensures GoesOn(kernels, forward, node, retained[v := r][r := r], env, r)
    {
      var e := With(env, r, env(v));
      assert AgreeBelow(env, e, r);
      StaysConsistent(kernels, forward, node, retained, env, e, r);
      assert Consistent(kernels, node, forward, retained[v := r][r := r], e);
    }
  }

  lemma PlaceholderGoes(forward: map<NodeId, Node>, node: map<NodeId, Node>, retained: Values, v: ValueId, r: ValueId)
    requires Bounded(forward, node, retained, r) && v < r && v !in retained
    ensures Goes(forward, node, retained, node, retained[v := r], r)
  {
    hide Solves, Bounded;
    forall kernels: Kernels, env: Env | Consistent(kernels, node, forward, retained, env)
      ensures GoesOn(kernels, forward, node, retained[v := r], env, r)
    {
      var e := With(env, r, env(v));
      assert AgreeBelow(env, e, r);
      StaysConsistent(kernels, forward, node, retained, env, e, r);
      assert Consistent(kernels, node, forward, retained[v := r], e);
    }
  }

  lemma ConstantGoes(forward: map<NodeId, Node>, node: map<NodeId, Node>, retained: Values, node': map<NodeId, Node>,
                     op: Op, r: ValueId)
    requires Bounded(forward, node, retained, r) && op.Constant? && Within(node, node')
    requires NodesAdded(node, node', Node(op, [], [r]))
    ensures Goes(forward, node, retained, node', retained, r)
  {
    hide Bounded, Holds;
    forall kernels: Kernels, env: Env | Consistent(kernels, node, forward, retained, env)
      ensures GoesOn(kernels, forward, node', retained, env, r)
    {
      var e := With(env, r, op.c);
      assert AgreeBelow(env, e, r);
      StaysConsistent(kernels, forward, node, retained, env, e, r);
      ConstantHere(kernels, e, op, r);
      assert Consistent(kernels, node', forward, retained, e);
    }
  }

  lemma ConstantHere(kernels: Kernels, env: Env, op: Op, r: ValueId)
    requires op.Constant? && env(r) == op.c
    ensures Holds(kernels, Node(op, [], [r]), env)
  {
    assert Vals(env, []) == [] && Vals(env, [r]) == [env(r)];
  }

  /** The values of `originals` at `vs` as well. */
  function Copied(env: Env, vs: seq<ValueId>, originals: seq<ValueId>): Env
    requires |vs| == |originals|
  {
    (w: ValueId) => if w in vs then env(originals[IndexOf(vs, w)]) else env(w)
  }

  lemma CopiedMeans(env: Env, vs: seq<ValueId>, originals: seq<ValueId>, bound: nat)
    requires |vs| == |originals| && Distinct(vs) && (forall v :: v in vs ==> bound <= v)
    ensures AgreeBelow(env, Copied(env, vs, originals), bound)
    ensures forall i :: 0 <= i < |vs| ==> Copied(env, vs, originals)(vs[i]) == env(originals[i])
  {
    forall i | 0 <= i < |vs| ensures Copied(env, vs, originals)(vs[i]) == env(originals[i]) {
      assert vs[IndexOf(vs, vs[i])] == vs[i];
    }
  }

  lemma CopyGoes(forward: map<NodeId, Node>, node: map<NodeId, Node>, retained: Values, node': map<NodeId, Node>,
                 retained': Values, copyOf: Values, n: NodeId, ins: seq<ValueId>, outs: seq<ValueId>, bound: nat)
    requires Bounded(forward, node, retained, bound) && Faithful(node, forward, retained, copyOf) && n in forward
    requires Stand(copyOf, retained, forward[n].inputs, ins) && |outs| == |forward[n].outputs| && Distinct(outs)
    requires (forall o :: o in outs ==> bound <= o) && Within(node, node')
    requires NodesAdded(node, node', Node(forward[n].op, ins, outs))
    requires Extends(retained, retained') && OnlyGuards(retained, retained')
    ensures Goes(forward, node, retained, node', retained', bound)
  {
    hide Bounded, Holds, Faithful, Stand, Distinct;
    forall kernels: Kernels, env: Env | Consistent(kernels, node, forward, retained, env)
      ensures GoesOn(kernels, forward, node', retained', env, bound)
    {
      var e := Copied(env, outs, forward[n].outputs);
      CopiedMeans(env, outs, forward[n].outputs, bound);
      StaysConsistent(kernels, forward, node, retained, env, e, bound);
      StandMeans(kernels, node, forward, retained, copyOf, e, forward[n].inputs, ins);
      StandSize(copyOf, retained, forward[n].inputs, ins);
      OriginalsBelow(forward, node, retained, n, bound);
      CopyHere(kernels, forward[n], e, ins, outs);
      assert Consistent(kernels, node', forward, retained', e);
    }
  }

  lemma StandSize(copyOf: Values, retained: Values, originals: seq<ValueId>, instead: seq<ValueId>)
    requires Stand(copyOf, retained, originals, instead)
    ensures |instead| == |originals|
  {
  }

  lemma OriginalsBelow(forward: map<NodeId, Node>, node: map<NodeId, Node>, retained: Values, n: NodeId, bound: nat)
    requires Bounded(forward, node, retained, bound) && n in forward
    ensures forall i :: 0 <= i < |forward[n].outputs| ==> forward[n].outputs[i] < bound
  {
    assert BelowNode(forward[n], bound);
    assert forall i :: 0 <= i < |forward[n].outputs| ==> forward[n].outputs[i] in forward[n].outputs;
  }

  lemma CopyHere(kernels: Kernels, n: Node, env: Env, ins: seq<ValueId>, outs: seq<ValueId>)
    requires Holds(kernels, n, env) && |ins| == |n.inputs| && |outs| == |n.outputs|
    requires forall i :: 0 <= i < |ins| ==> env(ins[i]) == env(n.inputs[i])
    requires forall i :: 0 <= i < |outs| ==> env(outs[i]) == env(n.outputs[i])
    ensures Holds(kernels, Node(n.op, ins, outs), env)
  {
    assert Vals(env, ins) == Vals(env, n.inputs) && Vals(env, outs) == Vals(env, n.outputs);
  }

  // ---- the finished graphs ----

  /** What is retained under another value. */
  ghost function Parts(retained: Values): Values {
    map v | v in retained && retained[v] != v :: retained[v]
  }

  /** Every run is part of a joint run of the finished graphs. */
  ghost predicate GoesJointly(forward: map<NodeId, Node>, node: map<NodeId, Node>, retained: Values,
                              forward': map<NodeId, Node>, node': map<NodeId, Node>, feeds: Feeds, bound: nat) {
    forall kernels: Kernels, env: Env :: Consistent(kernels, node, forward, retained, env) ==>
      JointlyContinues(kernels, forward', node', feeds, env, bound)
  }

  lemma GoesToTheEnd(forward: map<NodeId, Node>, a: map<NodeId, Node>, ra: Values, b: map<NodeId, Node>, rb: Values,
                     forward': map<NodeId, Node>, node': map<NodeId, Node>, feeds: Feeds, low: nat, high: nat)
    requires Goes(forward, a, ra, b, rb, low) && GoesJointly(forward, b, rb, forward', node', feeds, high)
    requires low <= high
    ensures GoesJointly(forward, a, ra, forward', node', feeds, low)
  {
    hide Consistent, Solves, Goes, JointlyContinues;
    forall kernels: Kernels, env: Env | Consistent(kernels, a, forward, ra, env)
      ensures JointlyContinues(kernels, forward', node', feeds, env, low)
    {
      var between := Next(kernels, forward, a, ra, b, rb, env, low);
      ContinuesEarlier(kernels, forward', node', feeds, env, between, low, high);
    }
  }

  lemma ContinuesEarlier(kernels: Kernels, forward: map<NodeId, Node>, node: map<NodeId, Node>, feeds: Feeds, a: Env,
                         b: Env, low: nat, high: nat)
    requires JointlyContinues(kernels, forward, node, feeds, b, high) && AgreeBelow(a, b, low) && low <= high
    ensures JointlyContinues(kernels, forward, node, feeds, a, low)
  {
    hide Solves, Fed, AgreeBelow;
    var after: Env :| Solves(kernels, forward, after) && Solves(kernels, node, after) && Fed(after, feeds)
      && AgreeBelow(b, after, high);
    AgreeTrans(a, b, after, low, high);
  }

  lemma GuardsGo(forward: map<NodeId, Node>, node: map<NodeId, Node>, retained: Values, bound: nat)
    ensures GoesJointly(forward, node, retained, node, node, map[], bound)
  {
    hide Solves;
    forall kernels: Kernels, env: Env | Consistent(kernels, node, forward, retained, env)
      ensures JointlyContinues(kernels, node, node, map[], env, bound)
    {
      assert AgreeBelow(env, env, bound);
    }
  }

  lemma PartsGo(forward: map<NodeId, Node>, node: map<NodeId, Node>, forward': map<NodeId, Node>,
                node': map<NodeId, Node>, feeds: Feeds, carried: Carried, retained: Values, low: nat, high: nat)
    requires Carriage(forward, node, forward', node', feeds, carried, Parts(retained), low, high)
    requires Bounded(forward, node, retained, low)
    ensures GoesJointly(forward, node, retained, forward', node', feeds, low)
  {
    hide Solves, NodesBelow, Carriage, Delivered, Fed;
    var parts, g := Parts(retained), Snapshot(forward, map[], map[], {});
    CarriageKeys(forward, node, forward', node', feeds, carried, parts, low, high);
    forall kernels: Kernels, env: Env | Consistent(kernels, node, forward, retained, env)
      ensures JointlyContinues(kernels, forward', node', feeds, env, low)
    {
      DeliveredRuns(kernels, g, node, forward', node', feeds, carried, parts, low, high, env);
      DeliveredMeans(env, forward, node, forward', node', feeds, carried, parts, low, high);
    }
  }
}
