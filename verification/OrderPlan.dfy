/** compiler/gradient_with_order.cc, AddGradientNodesForTrainingWithOrders: what a list of orders
    comes to, told without the graphs: which orders are accepted, what is staged after them, what
    is computed again and from what, and whose gradients are computed. */
module OrderPlan {
  import opened Ir
  import opened GraphIr

  /** A step.  `asked` are the positions, among the node's inputs and outputs, of the values that
      its gradient reads. */
  datatype Order =
    | ComputeForward(node: NodeId)
    | ComputeBackward(node: NodeId, asked: seq<nat>)
    | ForgetForward(value: ValueId)
    | ForgetBackward

  datatype Last = Original | Recomputed

  /** What is staged for a value: a value there already was, or an output of a recomputation. */
  datatype Source = Itself(value: ValueId) | Output(redo: nat, index: nat)

  /** A node computed again, and what was staged for its inputs. */
  datatype Redo = Redo(node: NodeId, inputs: seq<Source>)

  /** A node whose gradient is computed. */
  datatype Back = Back(node: NodeId, asked: seq<nat>)

  datatype Progress = Progress(staged: map<ValueId, Source>, scheduled: set<NodeId>, last: map<NodeId, Last>,
                               inBackward: bool,
                               redos: seq<Redo>, backs: seq<Back>)

  datatype Standing = Refused | Reached(progress: Progress)

  ghost function Operands(n: Node): seq<ValueId> {
    n.inputs + n.outputs
  }

  ghost predicate Known(order: Order, forward: map<NodeId, Node>) {
    match order
    case ComputeForward(n) => n in forward
    case ComputeBackward(n, asked) => n in forward && forall i :: i in asked ==> i < |Operands(forward[n])|
    case _ => true
  }

  /** With two graphs, the backward phase begins when all outputs are staged. */
  ghost function Switched(p: Progress, outputs: seq<ValueId>, two: bool): Progress {
    p.(inBackward := p.inBackward || (two && forall o :: o in outputs ==> o in p.staged))
  }

  /** First computation, in the forward phase: of inputs that are staged and not recomputed.
      Recomputation and gradients, in the backward phase: of what is staged. */
  ghost predicate Accepts(p: Progress, order: Order, forward: map<NodeId, Node>, two: bool)
    requires Known(order, forward)
  {
    match order
    case ComputeForward(n) =>
      var node := forward[n];
      && (if n in p.scheduled then
            (!two || p.inBackward) && forall i :: 0 <= i < |node.inputs| ==> node.inputs[i] in p.staged
          else
            (!two || !p.inBackward)
            && forall i :: 0 <= i < |node.inputs| ==>
                 node.inputs[i] in p.staged && p.staged[node.inputs[i]] == Itself(node.inputs[i]))
      && forall i :: 0 <= i < |node.outputs| ==> node.outputs[i] !in p.staged
    case ComputeBackward(n, _) =>
      (!two || p.inBackward) && n in p.last
      && forall i :: 0 <= i < |Operands(forward[n])| ==> Operands(forward[n])[i] in p.staged
    case ForgetForward(v) => v in p.staged
    case ForgetBackward => true
  }

  ghost function Done(p: Progress, order: Order, forward: map<NodeId, Node>, two: bool): Progress
    requires Known(order, forward) && Accepts(p, order, forward, two)
  {
    match order
    case ComputeForward(n) =>
      var node := forward[n];
      if n in p.scheduled then
        p.(staged := Restaged(p.staged, node.outputs, |p.redos|), last := p.last[n := Recomputed],
           redos := p.redos + [Redo(n, Sources(p.staged, node.inputs))])
      else
        p.(staged := p.staged + map v | v in node.outputs :: Itself(v), scheduled := p.scheduled + {n},
           last := p.last[n := Original])
    case ComputeBackward(n, asked) => p.(backs := p.backs + [Back(n, asked)])
    case ForgetForward(v) => p.(staged := p.staged - {v})
    case ForgetBackward => p
  }

  function Restaged(staged: map<ValueId, Source>, outputs: seq<ValueId>, redo: nat): map<ValueId, Source> {
    staged + map v | v in outputs :: Output(redo, IndexOf(outputs, v))
  }

  function Sources(staged: map<ValueId, Source>, inputs: seq<ValueId>): (sources: seq<Source>)
    requires forall i :: 0 <= i < |inputs| ==> inputs[i] in staged
    ensures |sources| == |inputs| && forall i :: 0 <= i < |inputs| ==> sources[i] == staged[inputs[i]]
  {
    seq(|inputs|, i requires 0 <= i < |inputs| => staged[inputs[i]])
  }

  /** One order after the other; a refused one ends it. */
  ghost function Course(p: Progress, orders: seq<Order>, forward: map<NodeId, Node>, outputs: seq<ValueId>,
                        two: bool): Standing
    requires forall i :: 0 <= i < |orders| ==> Known(orders[i], forward)
    decreases |orders|
  {
    if orders == [] then Reached(p) else
      var n := |orders| - 1;
      match Course(p, orders[..n], forward, outputs, two)
      case Refused => Refused
      case Reached(q) =>
        var r := Switched(q, outputs, two);
        if Accepts(r, orders[n], forward, two) then Reached(Done(r, orders[n], forward, two)) else Refused
  }

  lemma CourseMore(p: Progress, orders: seq<Order>, forward: map<NodeId, Node>, outputs: seq<ValueId>, two: bool,
                   i: nat)
    requires (forall k :: 0 <= k < |orders| ==> Known(orders[k], forward)) && i < |orders|
    requires Course(p, orders[..i], forward, outputs, two).Reached?
    ensures var q := Switched(Course(p, orders[..i], forward, outputs, two).progress, outputs, two);
      Course(p, orders[..i + 1], forward, outputs, two)
        == if Accepts(q, orders[i], forward, two) then Reached(Done(q, orders[i], forward, two)) else Refused
  {
    hide Accepts, Done, Switched;
    assert orders[..i + 1][..i] == orders[..i];
  }

  lemma {:induction false} RefusedStays(p: Progress, orders: seq<Order>, forward: map<NodeId, Node>,
                                        outputs: seq<ValueId>, two: bool, i: nat)
    requires (forall k :: 0 <= k < |orders| ==> Known(orders[k], forward)) && i <= |orders|
    requires Course(p, orders[..i], forward, outputs, two).Refused?
    ensures Course(p, orders, forward, outputs, two).Refused?
    decreases |orders|
  {
    hide Accepts, Done, Switched;
    if i == |orders| {
      assert orders[..i] == orders;
    } else {
      var n := |orders| - 1;
      assert orders[..n][..i] == orders[..i];
      RefusedStays(p, orders[..n], forward, outputs, two, i);
    }
  }

  /** Recomputations read what there was or what earlier ones have made; only nodes computed once
      are computed again or have their gradients computed. */
  ghost predicate InOrder(p: Progress) {
    && (forall v :: v in p.staged && p.staged[v].Output? ==> p.staged[v].redo < |p.redos|)
    && (forall k, i :: 0 <= k < |p.redos| && 0 <= i < |p.redos[k].inputs| && p.redos[k].inputs[i].Output? ==>
          p.redos[k].inputs[i].redo < k)
    && p.last.Keys == p.scheduled
    && (forall k :: 0 <= k < |p.redos| ==> p.redos[k].node in p.scheduled)
    && (forall k :: 0 <= k < |p.backs| ==> p.backs[k].node in p.scheduled)
  }

  lemma {:induction false} CourseInOrder(p: Progress, orders: seq<Order>, forward: map<NodeId, Node>,
                                         outputs: seq<ValueId>, two: bool)
    requires forall k :: 0 <= k < |orders| ==> Known(orders[k], forward)
    requires InOrder(p) && Course(p, orders, forward, outputs, two).Reached?
    ensures InOrder(Course(p, orders, forward, outputs, two).progress)
    decreases |orders|
  {
    hide Accepts;
    if orders != [] {
      var n := |orders| - 1;
      CourseInOrder(p, orders[..n], forward, outputs, two);
      var q := Switched(Course(p, orders[..n], forward, outputs, two).progress, outputs, two);
      DoneInOrder(q, orders[n], forward, two);
    }
  }

  lemma DoneInOrder(p: Progress, order: Order, forward: map<NodeId, Node>, two: bool)
    requires Known(order, forward) && Accepts(p, order, forward, two) && InOrder(p)
    ensures InOrder(Done(p, order, forward, two))
  {
  }
}
