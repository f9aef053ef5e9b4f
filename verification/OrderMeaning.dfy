/** compiler/gradient_with_order.cc: what staged and retained values hold. */
module OrderMeaning {
  import opened Ir
  import opened GraphIr
  import opened Builder
  import opened GradientOps

  type Values = map<ValueId, ValueId>

  /** GetMappedValues without the check: `v` itself when it is not in the map. */
  function MapOr(m: Values, v: ValueId): ValueId {
    if v in m then m[v] else v
  }

  function Mapped(m: Values, vs: seq<ValueId>): (r: seq<ValueId>)
    ensures |r| == |vs| && forall i :: 0 <= i < |vs| ==> r[i] == MapOr(m, vs[i])
  {
    seq(|vs|, i requires 0 <= i < |vs| => MapOr(m, vs[i]))
  }

  /** `copyOf` gives the original of every recomputed value: in every run both are equal. */
  ghost predicate Faithful(node: map<NodeId, Node>, forward: map<NodeId, Node>, retained: Values, copyOf: Values) {
    forall kernels: Kernels, env: Env :: Consistent(kernels, node, forward, retained, env) ==>
      forall c :: c in copyOf ==> env(c) == env(copyOf[c])
  }

  /** `s` is `v` or has been recomputed for it. */
  ghost predicate Copies(copyOf: Values, v: ValueId, s: ValueId) {
    s == v || (s in copyOf && copyOf[s] == v)
  }

  ghost predicate AllCopies(copyOf: Values, staged: Values) {
    forall v :: v in staged ==> Copies(copyOf, v, staged[v])
  }

  /** Values read instead of others: staged ones, or what they are retained in. */
  ghost predicate Stand(copyOf: Values, retained: Values, originals: seq<ValueId>, instead: seq<ValueId>) {
    && |instead| == |originals|
    && forall i :: 0 <= i < |originals| ==> StandsFor(copyOf, retained, originals[i], instead[i])
  }

  ghost predicate StandsFor(copyOf: Values, retained: Values, v: ValueId, s: ValueId) {
    Copies(copyOf, v, s) || exists t :: t in retained && retained[t] == s && Copies(copyOf, v, t)
  }

  lemma StandMeans(kernels: Kernels, node: map<NodeId, Node>, forward: map<NodeId, Node>, retained: Values,
                   copyOf: Values, env: Env, originals: seq<ValueId>, instead: seq<ValueId>)
    requires Faithful(node, forward, retained, copyOf) && Consistent(kernels, node, forward, retained, env)
    requires Stand(copyOf, retained, originals, instead)
    ensures forall i :: 0 <= i < |originals| ==> env(instead[i]) == env(originals[i])
  {
    FaithfulHere(kernels, node, forward, retained, copyOf, env);
    hide Faithful, Solves;
    forall i | 0 <= i < |originals| ensures env(instead[i]) == env(originals[i]) {
      assert StandsFor(copyOf, retained, originals[i], instead[i]);
    }
  }

  lemma FaithfulHere(kernels: Kernels, node: map<NodeId, Node>, forward: map<NodeId, Node>, retained: Values,
                     copyOf: Values, env: Env)
    requires Faithful(node, forward, retained, copyOf) && Consistent(kernels, node, forward, retained, env)
    ensures forall c :: c in copyOf ==> env(c) == env(copyOf[c])
  {
    hide Consistent;
  }

  /** The originals of newly recomputed outputs. */
  function MoreCopies(copyOf: Values, outputs: seq<ValueId>, originals: seq<ValueId>): Values
    requires |outputs| == |originals|
    decreases |outputs|
  {
    if outputs == [] then copyOf
    else MoreCopies(copyOf, outputs[..|outputs| - 1], originals[..|outputs| - 1])[outputs[|outputs| - 1] :=
      originals[|outputs| - 1]]
  }

  lemma {:induction false} MoreCopiesAt(copyOf: Values, outputs: seq<ValueId>, originals: seq<ValueId>)
    requires |outputs| == |originals| && Distinct(outputs) && forall o :: o in outputs ==> o !in copyOf
    ensures forall c :: c in MoreCopies(copyOf, outputs, originals) <==> c in copyOf || c in outputs
    ensures forall c :: c in copyOf ==> MoreCopies(copyOf, outputs, originals)[c] == copyOf[c]
    ensures forall i :: 0 <= i < |outputs| ==> MoreCopies(copyOf, outputs, originals)[outputs[i]] == originals[i]
  {
    if outputs != [] {
      var n := |outputs| - 1;
      assert outputs == outputs[..n] + [outputs[n]];
      MoreCopiesAt(copyOf, outputs[..n], originals[..n]);
      assert outputs[n] in outputs;
      var before := MoreCopies(copyOf, outputs[..n], originals[..n]);
      assert MoreCopies(copyOf, outputs, originals) == before[outputs[n] := originals[n]];
      hide MoreCopies;
      forall i | 0 <= i < n ensures before[outputs[i]] == originals[i] && outputs[i] != outputs[n] {
        assert outputs[..n][i] == outputs[i] && originals[..n][i] == originals[i];
      }
    }
  }

  /** Recomputation: the same operator on values that stand for the same originals. */
  lemma RecomputeIsFaithful(node: map<NodeId, Node>, node': map<NodeId, Node>, forward: map<NodeId, Node>,
                            retained: Values, retained': Values, copyOf: Values, id: NodeId,
                            inputs: seq<ValueId>, outputs: seq<ValueId>)
    requires Faithful(node, forward, retained, copyOf) && Grown(node, retained, node', retained')
    requires id in forward && Has(node', Node(forward[id].op, inputs, outputs))
    requires Stand(copyOf, retained', forward[id].inputs, inputs) && |outputs| == |forward[id].outputs|
    requires Distinct(outputs) && forall o :: o in outputs ==> o !in copyOf
    ensures Faithful(node', forward, retained', MoreCopies(copyOf, outputs, forward[id].outputs))
  {
    hide Consistent, Has, Grown, Stand, Faithful, MoreCopies;
    GrownIsFaithful(node, node', forward, retained, retained', copyOf);
    MoreCopiesAt(copyOf, outputs, forward[id].outputs);
    var more := MoreCopies(copyOf, outputs, forward[id].outputs);
    forall kernels: Kernels, env: Env | Consistent(kernels, node', forward, retained', env)
      ensures forall c :: c in more ==> env(c) == env(more[c])
    {
      FaithfulHere(kernels, node', forward, retained', copyOf, env);
      RecomputedOutputs(kernels, node', forward, retained', copyOf, env, id, inputs, outputs);
      forall c | c in more ensures env(c) == env(more[c]) {
        if c in outputs {
          var i :| 0 <= i < |outputs| && outputs[i] == c;
        }
      }
    }
    FaithfulIntro(node', forward, retained', more);
  }

  lemma FaithfulIntro(node: map<NodeId, Node>, forward: map<NodeId, Node>, retained: Values, copyOf: Values)
    requires forall kernels: Kernels, env: Env :: Consistent(kernels, node, forward, retained, env) ==>
      forall c :: c in copyOf ==> env(c) == env(copyOf[c])
    ensures Faithful(node, forward, retained, copyOf)
  {
    hide Consistent;
  }

  lemma RecomputedOutputs(kernels: Kernels, node: map<NodeId, Node>, forward: map<NodeId, Node>, retained: Values,
                          copyOf: Values, env: Env, id: NodeId, inputs: seq<ValueId>, outputs: seq<ValueId>)
    requires Faithful(node, forward, retained, copyOf) && Consistent(kernels, node, forward, retained, env)
    requires id in forward && Has(node, Node(forward[id].op, inputs, outputs))
    requires Stand(copyOf, retained, forward[id].inputs, inputs) && |outputs| == |forward[id].outputs|
    ensures forall i :: 0 <= i < |outputs| ==> env(outputs[i]) == env(forward[id].outputs[i])
  {
    hide Faithful, Has, Apply;
    StandMeans(kernels, node, forward, retained, copyOf, env, forward[id].inputs, inputs);
    hide Stand;
    HasMeans(kernels, node, env, Node(forward[id].op, inputs, outputs));
    assert Holds(kernels, forward[id], env);
    assert Vals(env, inputs) == Vals(env, forward[id].inputs);
    if outputs != [] {
      assert Vals(env, outputs) == Vals(env, forward[id].outputs);
      assert forall i :: 0 <= i < |outputs| ==> Vals(env, outputs)[i] == env(outputs[i]);
    }
  }

  /** More nodes and more retained values keep what is known. */
  lemma GrownIsFaithful(node: map<NodeId, Node>, node': map<NodeId, Node>, forward: map<NodeId, Node>,
                        retained: Values, retained': Values, copyOf: Values)
    requires Faithful(node, forward, retained, copyOf) && Grown(node, retained, node', retained')
    ensures Faithful(node', forward, retained', copyOf)
  {
    hide Consistent, Grown;
    forall kernels: Kernels, env: Env | Consistent(kernels, node', forward, retained', env)
      ensures forall c :: c in copyOf ==> env(c) == env(copyOf[c])
    {
      ConsistentEarlier(kernels, node, retained, node', retained', forward, env);
    }
  }
}
