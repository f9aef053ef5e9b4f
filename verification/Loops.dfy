/** Loop nodes: a body graph that runs again and again on a list of states
    (compiler/node.cc, Node::Validate; compiler/chxvm/emitter.cc, EmitLoopImpl). */
module Loops {
  import opened Ir
  import opened GraphIr
  import opened Builder

  /** `nulls` are the values of kind null among the inputs and outputs. */
  datatype Loop = Loop(
    inputs: seq<ValueId>,          // trip count, condition, states
    outputs: seq<ValueId>,         // states, scan outputs
    body: map<NodeId, Node>,
    bodyInputs: seq<ValueId>,      // iteration, condition, states
    bodyOutputs: seq<ValueId>,     // condition, states, scan outputs
    nulls: set<ValueId>)
  {
    /** The numbers of inputs and outputs fit. */
    ghost predicate Fits() {
      && 2 <= |inputs| && |bodyInputs| == |inputs|
      && |bodyOutputs| == |outputs| + 1 && |inputs| - 2 <= |outputs|
    }

    /** Node::Validate. */
    ghost predicate Validates() {
      && 2 < |inputs| && 0 < |outputs|
      && |bodyInputs| == (|inputs| - 2) + 2
      && |outputs| == (|inputs| - 2) + (|bodyOutputs| - 1 - (|inputs| - 2))
      && (inputs[0] !in nulls || inputs[1] !in nulls)
    }

    function States(): nat
      requires Fits()
    {
      |inputs| - 2
    }

    /** State `s` before iteration `j`. */
    function StateAt(env: Env, envs: seq<Env>, j: nat, s: nat): Data
      requires Fits() && j <= |envs| && s < States()
    {
      if j == 0 then env(inputs[2 + s]) else envs[j - 1](bodyOutputs[1 + s])
    }

    /** Iteration `j` takes place after the ones before it. */
    ghost predicate Enters(env: Env, envs: seq<Env>, j: nat)
      requires Fits() && j <= |envs|
    {
      && (inputs[0] !in nulls ==> env(inputs[0]).Int? && j < env(inputs[0]).i)
      && (inputs[1] !in nulls ==> Bool(true) == if j == 0 then env(inputs[1]) else envs[j - 1](bodyOutputs[0]))
    }

    ghost predicate Iteration(kernels: Kernels, env: Env, envs: seq<Env>, j: nat)
      requires Fits() && j < |envs|
    {
      && Enters(env, envs, j)
      && Solves(kernels, body, envs[j])
      && envs[j](bodyInputs[0]) == Int(j)
      && envs[j](bodyInputs[1]) == Bool(true)
      && forall s :: 0 <= s < States() ==> envs[j](bodyInputs[2 + s]) == StateAt(env, envs, j, s)
    }

    function Scanned(envs: seq<Env>, q: nat): Data
      requires Fits() && States() + q < |outputs|
    {
      Tensor(seq(|envs|, j requires 0 <= j < |envs| => envs[j](bodyOutputs[1 + States() + q])))
    }

    ghost predicate Results(env: Env, envs: seq<Env>)
      requires Fits()
    {
      && (forall s :: 0 <= s < States() && outputs[s] !in nulls ==> env(outputs[s]) == StateAt(env, envs, |envs|, s))
      && (forall q :: 0 <= q < |outputs| - States() ==> env(outputs[States() + q]) == Scanned(envs, q))
    }

    /** A run: one environment of the body for every iteration. */
    ghost predicate Run(kernels: Kernels, env: Env, envs: seq<Env>) {
      && Fits()
      && (forall j :: 0 <= j < |envs| ==> Iteration(kernels, env, envs, j))
      && !Enters(env, envs, |envs|)
      && Results(env, envs)
    }
  }

  /** What a run says about one iteration. */
  lemma RunIteration(kernels: Kernels, loop: Loop, env: Env, envs: seq<Env>, j: nat)
    requires loop.Run(kernels, env, envs) && j < |envs|
    ensures loop.Fits() && Solves(kernels, loop.body, envs[j])
    ensures envs[j](loop.bodyInputs[0]) == Int(j) && envs[j](loop.bodyInputs[1]) == Bool(true)
    ensures forall s :: 0 <= s < loop.States() ==> envs[j](loop.bodyInputs[2 + s]) == loop.StateAt(env, envs, j, s)
  {
    hide Solves;
    assert loop.Iteration(kernels, env, envs, j);
  }

  /** A Loop node and its body. */
  class LoopNode {
    var inputs: seq<ValueId>
    var outputs: seq<ValueId>
    var bodyInputs: seq<ValueId>
    var bodyOutputs: seq<ValueId>
    const body: Graph
    const nulls: set<ValueId>

    ghost function Value(): Loop
      reads this, body`node
    {
      Loop(inputs, outputs, body.node, bodyInputs, bodyOutputs, nulls)
    }

    ghost predicate Ok(outside: nat)
      reads this, body
    {
      && body.Valid({})
      && AllIn(inputs, outside) && AllIn(outputs, outside)
      && AllIn(bodyInputs, body.nextValue) && AllIn(bodyOutputs, body.nextValue)
      && forall v :: v in nulls ==> v < outside
    }

    constructor (body: Graph, inputs: seq<ValueId>, outputs: seq<ValueId>, bodyInputs: seq<ValueId>,
                 bodyOutputs: seq<ValueId>, nulls: set<ValueId>)
      ensures this.body == body && this.nulls == nulls
      ensures Value() == Loop(inputs, outputs, body.node, bodyInputs, bodyOutputs, nulls)
    {
      this.body, this.nulls := body, nulls;
      this.inputs, this.outputs, this.bodyInputs, this.bodyOutputs := inputs, outputs, bodyInputs, bodyOutputs;
    }
  }

  lemma ValueIs(loop: LoopNode)
    ensures loop.Value() ==
      Loop(loop.inputs, loop.outputs, loop.body.node, loop.bodyInputs, loop.bodyOutputs, loop.nulls)
  {
  }
}
