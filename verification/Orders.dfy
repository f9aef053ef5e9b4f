/** compiler/gradient_with_order.cc: forward computation, recomputation, backward computation
    and forgetting, in an order given from outside. */
module Orders {
  import opened Ir
  import opened GraphIr
  import opened Builder
  import opened GradientOps
  import opened GradientRuns
  import opened GradientGraphs
  import opened OrderMeaning
  import opened OrderPlan
  import opened OrderRuns

  /** Graphs, maps and sets as the main loop keeps them. */
  datatype State = State(
    staged: Values,                      // forward values and what holds them now
    retained: Values,                    // what holds them for the backward part; guards map to themselves
    stagedInForward: set<ValueId>,
    scheduledForward: set<NodeId>,
    last: map<NodeId, Last>,
    inBackward: bool)

  /** A recomputation: what was staged for the inputs, what is read for it, and the new outputs. */
  datatype Copy = Copy(node: NodeId, values: seq<ValueId>, inputs: seq<ValueId>, outputs: seq<ValueId>)

  /** The values given to the gradient of a node for those it asks for. */
  datatype Supply = Supply(node: NodeId, asked: seq<nat>, given: seq<ValueId>)

  ghost predicate Guards(retained: Values) {
    forall v :: v in retained ==> retained[v] == v
  }

  /** Recomputed values guard themselves and belong to the backward graph. */
  ghost predicate CopiesGuarded(retained: Values, copyOf: Values, border: nat) {
    && (forall c :: c in copyOf ==> border <= c && c in retained && retained[c] == c)
  }

  /** Forward values are retained in placeholders of their own, which no node writes. */
  ghost predicate Held(retained: Values, copyOf: Values, producer: map<ValueId, NodeId>, border: nat, bound: nat) {
    && (forall v :: v in retained ==> border <= retained[v] < bound)
    && (forall v :: v in retained && retained[v] != v ==>
          v < border && retained[v] !in producer && retained[v] !in copyOf)
    && (forall v, w ::
          v in retained && w in retained && retained[v] == retained[w] && retained[v] != v && retained[w] != w ==>
            v == w)
  }

  /** In the backward phase every staged value is retained or can still be. */
  ghost predicate Reachable(s: State) {
    forall v :: v in s.staged ==> s.staged[v] in s.retained || s.staged[v] in s.stagedInForward
  }

  /** Operands of recomputed nodes are retained while they are staged. */
  ghost predicate RecomputedRetained(forward: map<NodeId, Node>, s: State) {
    forall n, v ::
      n in s.last && s.last[n] == Recomputed && n in forward && Mentions(forward[n], v) && v in s.staged ==>
      s.staged[v] in s.retained
  }

  /** Before the backward phase nothing has been recomputed or retained. */
  ghost predicate StillForward(s: State, copyOf: Values) {
    && s.retained == map[] && copyOf == map[] && (forall n :: n in s.last ==> s.last[n] == Original)
  }

  /** What is given for the operands asked for is what is staged for them, or holds it now. */
  ghost predicate ReadAsStaged(s: State, operands: seq<ValueId>, asked: seq<nat>, given: seq<ValueId>) {
    |given| <= |asked| && forall k :: 0 <= k < |given| ==>
      asked[k] < |operands| && operands[asked[k]] in s.staged
      && given[k] == MapOr(s.retained, s.staged[operands[asked[k]]])
  }

  /** No value that is retained in addition is written by a Constant node. */
  ghost predicate MorePlain(node: map<NodeId, Node>, producer: map<ValueId, NodeId>, before: Values, after: Values) {
    forall v :: v in after && v !in before ==> !IsConstant(node, producer, v)
  }

  lemma ConstantsStay(before: map<NodeId, Node>, producer0: map<ValueId, NodeId>, node: map<NodeId, Node>,
                      producer: map<ValueId, NodeId>, retained: Values)
    requires Grown(before, retained, node, retained) && Written(node, producer, {})
    ensures forall v :: IsConstant(before, producer0, v) ==> IsConstant(node, producer, v)
  {
    forall v | IsConstant(before, producer0, v) ensures IsConstant(node, producer, v) {
      assert node[producer0[v]].outputs[0] == v;
    }
  }

  lemma GrownNodes(before: map<NodeId, Node>, retained0: Values, node: map<NodeId, Node>, retained: Values)
    requires Grown(before, retained0, node, retained)
    ensures Grown(before, retained, node, retained)
  {
  }

  class OrderRun {
    const fwd: Graph
    const bwd: Graph
    const border: nat
    const outputs: seq<ValueId>
    ghost const forward: map<NodeId, Node>
    var s: State
    ghost var copyOf: Values

    ghost predicate Ok()
      reads this, fwd, bwd
    {
      && Graphs() && Meaning() && Retention()
    }

    ghost predicate Graphs()
      reads this`s, fwd, bwd
    {
      && fwd.Valid({}) && bwd.Valid({}) && Within(forward, fwd.node)
      && (if fwd == bwd then border == 0 else
            fwd.node == forward && NodesBelow(forward, border) && border == fwd.nextValue <= bwd.nextValue
            && ReadsFrom(bwd.node, border))
      && (forall v :: v in s.staged ==> v < fwd.nextValue)
    }

    ghost predicate Meaning()
      reads this, bwd
    {
      && Faithful(bwd.node, forward, s.retained, copyOf) && AllCopies(copyOf, s.staged)
      && forall c :: c in copyOf ==> c < bwd.nextValue
    }

    ghost predicate Retention()
      reads this, bwd
    {
      && CopiesGuarded(s.retained, copyOf, border)
      && (if fwd == bwd then Guards(s.retained) && s.stagedInForward == {} else
            && Held(s.retained, copyOf, bwd.producer, border, bwd.nextValue)
            && (if s.inBackward then Reachable(s) && RecomputedRetained(forward, s) else StillForward(s, copyOf))
            && (forall v :: v in s.stagedInForward ==> v < border))
      && (forall v :: v in s.retained ==> v < bwd.nextValue)
    }

    constructor (fwd: Graph, bwd: Graph, inputs: set<ValueId>, outputs: seq<ValueId>)
      requires fwd.Valid({}) && bwd.Valid({}) && fwd.nextValue <= bwd.nextValue
      requires fwd != bwd ==> ReadsFrom(bwd.node, fwd.nextValue)
      requires forall v :: v in inputs ==> v < fwd.nextValue
      ensures this.fwd == fwd && this.bwd == bwd && this.outputs == outputs && Ok()
      ensures forward == fwd.node && copyOf == map[]
      ensures s == State(map v | v in inputs :: v, map[], {}, {}, map[], false)
    {
      this.fwd, this.bwd, this.outputs := fwd, bwd, outputs;
      forward, copyOf := fwd.node, map[];
      border := if fwd == bwd then 0 else fwd.nextValue;
      s := State(map v | v in inputs :: v, map[], {}, {}, map[], false);
    }

    /** Everything that is known is below the next value of the backward graph. */
    lemma AllBelow()
      requires Ok()
      ensures Bounded(forward, bwd.node, s.retained, bwd.nextValue)
    {
      hide DefUse, Written, Faithful, AllCopies, ReadsFrom, Reachable, RecomputedRetained, StillForward;
      BoundedNow(forward, bwd.node, s.retained, copyOf, bwd.producer, border, bwd.nextValue);
    }

    /** The checks of CheckConstraints. */
    ghost predicate Constraints()
      reads this, fwd
    {
      && (forall v :: v in s.staged ==> v < fwd.nextValue && (s.staged[v] != v ==> s.staged[v] in copyOf))
      && (if fwd != bwd then
            forall v :: v in s.retained && s.retained[v] != v ==>
              v < fwd.nextValue && s.retained[v] >= fwd.nextValue && s.retained[v] !in copyOf
          else Guards(s.retained))
    }

    /** CheckConstraints never fails. */
    lemma ConstraintsHold()
      requires Ok()
      ensures Constraints()
    {
      hide Faithful;
    }

    ghost predicate InForward() reads this`s {
      fwd == bwd || !s.inBackward
    }

    ghost predicate InBackward() reads this`s {
      fwd == bwd || s.inBackward
    }

    /** Once all outputs of the forward graph are staged, the backward phase begins. */
    method Switch()
      requires Ok()
      modifies this`s
      ensures Ok() && copyOf == old(copyOf)
      ensures s == old(s).(inBackward := s.inBackward, stagedInForward := s.stagedInForward)
      ensures s.inBackward == (old(s.inBackward) || (fwd != bwd && forall o :: o in outputs ==> o in s.staged))
    {
      hide Faithful, DefUse, Written, Below, ReadsFrom, NodesBelow, Held;
      if fwd != bwd && !s.inBackward && forall o :: o in outputs ==> o in s.staged {
        s := s.(inBackward := true, stagedInForward := s.staged.Values);
      }
    }

    // ---- first computation ----

    /** A node for the first time: its inputs must be staged and not recomputed. */
    method ComputeFirst(n: NodeId) returns (ok: bool)
      requires Ok() && n in forward && n in fwd.node && InForward()
      modifies this`s
      ensures ok ==> Ok() && copyOf == old(copyOf)
      ensures ok ==> s == old(s).(staged := s.staged, last := old(s.last)[n := Original])
      ensures ok ==> forall i :: 0 <= i < |forward[n].inputs| ==>
        forward[n].inputs[i] in old(s.staged) && old(s.staged)[forward[n].inputs[i]] == forward[n].inputs[i]
      ensures ok ==> StagedThemselves(old(s.staged), s.staged, forward[n].outputs)
      ensures ok <==> FirstFits(old(s.staged), forward[n])
    {
      hide Faithful, DefUse, Written, ReadsFrom, NodesBelow, Held, Below, Reachable, StillForward, RecomputedRetained,
        Guards,
        CopiesGuarded, Within;
      WithinAt(forward, fwd.node, n);
      OutputsBelow(fwd, n);
      var node := fwd.node[n];
      var found := AllThemselves(s.staged, node.inputs);
      if !found { return false; }
      var fits, staged := StageThemselves(s.staged, node.outputs);
      if !fits { return false; }
      FirstKeeps(s, staged, forward, copyOf, n);
      s := s.(staged := staged, last := s.last[n := Original]);
      ok := true;
    }

    // ---- recomputation ----

    /** A staged forward value is about to be read in the backward graph. */
    method HoldOne(v: ValueId)
      requires Ok() && InBackward()
      modifies this`s, bwd`nextValue
      ensures Ok() && InBackward() && copyOf == old(copyOf) && v !in s.stagedInForward
      ensures s == old(s).(stagedInForward := s.stagedInForward, retained := s.retained)
      ensures Extends(old(s.retained), s.retained) && bwd.nextValue >= old(bwd.nextValue)
      ensures Goes(forward, bwd.node, old(s.retained), bwd.node, s.retained, old(bwd.nextValue))
    {
      hide Faithful, DefUse, Written, ReadsFrom, NodesBelow, AllCopies, Held, CopiesGuarded, Reachable,
        RecomputedRetained, StillForward;
      hide Goes, Bounded;
      GoesNowhere(forward, bwd.node, s.retained, bwd.nextValue);
      if v !in s.stagedInForward { return; }
      var retained := s.retained;
      ghost var before := s;
      if v !in retained {
        AllBelow();
        HoldGoes(forward, bwd.node, s.retained, v, bwd.nextValue);
        var r := bwd.AddValue({});
        retained := retained[v := r][r := r];
        HoldKeeps(s, copyOf, bwd.producer, border, r, v);
        HoldIsGrown(bwd.node, s.retained, v, r);
        GrownIsFaithful(bwd.node, bwd.node, forward, s.retained, retained, copyOf);
      }
      s := s.(stagedInForward := s.stagedInForward - {v}, retained := retained);
      HoldReaches(before, s, forward, v);
    }

    /** All inputs of a node to be recomputed. */
    method HoldAll(inputs: seq<ValueId>)
      requires Ok() && InBackward() && forall v :: v in inputs ==> v in s.staged
      modifies this`s, bwd`nextValue
      ensures Ok() && InBackward() && copyOf == old(copyOf) && bwd.nextValue >= old(bwd.nextValue)
      ensures s == old(s).(stagedInForward := s.stagedInForward, retained := s.retained)
      ensures Extends(old(s.retained), s.retained)
      ensures fwd != bwd ==> forall v :: v in inputs ==> s.staged[v] in s.retained
      ensures Goes(forward, bwd.node, old(s.retained), bwd.node, s.retained, old(bwd.nextValue))
    {
      hide Graphs, Meaning, CopiesGuarded, Held, RecomputedRetained, StillForward, Goes;
      var i := 0;
      GoesNowhere(forward, bwd.node, s.retained, bwd.nextValue);
      while i < |inputs|
        invariant 0 <= i <= |inputs| && Ok() && InBackward() && copyOf == old(copyOf)
        invariant bwd.nextValue >= old(bwd.nextValue)
        invariant s == old(s).(stagedInForward := s.stagedInForward, retained := s.retained)
        invariant Extends(old(s.retained), s.retained)
        invariant fwd != bwd ==> forall k :: 0 <= k < i ==> s.staged[inputs[k]] in s.retained
        invariant Goes(forward, bwd.node, old(s.retained), bwd.node, s.retained, old(bwd.nextValue))
      {
        ghost var retained, high := s.retained, bwd.nextValue;
        HoldOne(s.staged[inputs[i]]);
        GoesTrans(forward, bwd.node, old(s.retained), bwd.node, retained, bwd.node, s.retained, old(bwd.nextValue),
                  high);
        i := i + 1;
      }
    }

    /** New values for recomputed outputs, guarded against being retained. */
    method NewCopies(count: nat) returns (outs: seq<ValueId>)
      requires Ok() && InBackward()
      modifies this`s, bwd`nextValue
      ensures Ok() && InBackward() && copyOf == old(copyOf) && bwd.nextValue >= old(bwd.nextValue)
      ensures s == old(s).(retained := s.retained) && Extends(old(s.retained), s.retained)
      ensures |outs| == count && FreshGuards(s.retained, copyOf, bwd.producer, outs, old(bwd.nextValue), bwd.nextValue)
      ensures OnlyGuards(old(s.retained), s.retained)
    {
      hide *;
      outs := [];
      NoGuards(s.retained);
      NoFreshGuards(s.retained, copyOf, bwd.producer, bwd.nextValue);
      NoneExtends(s.retained);
      while |outs| < count
        invariant |outs| <= count && Ok() && InBackward() && copyOf == old(copyOf)
        invariant bwd.nextValue >= old(bwd.nextValue)
        invariant bwd.producer == old(bwd.producer)
        invariant s == old(s).(retained := s.retained) && Extends(old(s.retained), s.retained)
        invariant FreshGuards(s.retained, copyOf, bwd.producer, outs, old(bwd.nextValue), bwd.nextValue)
        invariant OnlyGuards(old(s.retained), s.retained)
      {
        ghost var retained := s.retained;
        var v := NewCopy();
        GuardsMore(old(s.retained), retained, v);
        GuardExtends(old(s.retained), retained, copyOf, bwd.producer, v);
        GuardIsFresh(retained, copyOf, bwd.producer, outs, old(bwd.nextValue), v);
        outs := outs + [v];
      }
    }

    /** A new value of the backward graph, which stands for itself. */
    method NewCopy() returns (v: ValueId)
      requires Ok() && InBackward()
      modifies this`s, bwd`nextValue
      ensures Ok() && InBackward() && copyOf == old(copyOf) && v == old(bwd.nextValue) && bwd.nextValue == v + 1
      ensures s == old(s).(retained := old(s.retained)[v := v])
      ensures Unused(old(s.retained), copyOf, bwd.producer, v) && HeldBelow(old(s.retained), v)
    {
      hide Faithful, DefUse, Written, ReadsFrom, NodesBelow, AllCopies, Held, CopiesGuarded, Reachable,
        RecomputedRetained, StillForward;
      v := bwd.AddValue({});
      HeldIsBelow(s.retained, copyOf, bwd.producer, border, v);
      GuardKeepsHeld(s.retained, copyOf, bwd.producer, border, v);
      GuardIsGrown(s, forward, bwd.node, v);
      GrownIsFaithful(bwd.node, bwd.node, forward, s.retained, s.retained[v := v], copyOf);
      s := s.(retained := s.retained[v := v]);
    }

    /** What stands for staged inputs is known to the backward graph. */
    lemma InsFit(inputs: seq<ValueId>)
      requires Ok() && forall i :: 0 <= i < |inputs| ==> inputs[i] in s.staged
      ensures forall x :: x in Mapped(s.retained, Mapped(s.staged, inputs)) ==> x < bwd.nextValue
      ensures fwd != bwd && (forall v :: v in inputs ==> s.staged[v] in s.retained) ==>
        forall x :: x in Mapped(s.retained, Mapped(s.staged, inputs)) ==> border <= x
    {
      hide Faithful, DefUse, Written, Below, ReadsFrom, NodesBelow, Reachable, RecomputedRetained, StillForward;
      var ins := Mapped(s.retained, Mapped(s.staged, inputs));
      forall i | 0 <= i < |inputs|
        ensures ins[i] < bwd.nextValue && (fwd != bwd && s.staged[inputs[i]] in s.retained ==> border <= ins[i])
      {
        assert Copies(copyOf, inputs[i], s.staged[inputs[i]]);
      }
      assert forall i :: 0 <= i < |inputs| ==> inputs[i] in inputs;
    }

    /** The copy of a node in the backward graph. */
    method AddCopy(op: Op, ins: seq<ValueId>, outs: seq<ValueId>)
      requires bwd.Valid({}) && Distinct(outs) && forall o :: o in outs ==> o !in bwd.producer && o < bwd.nextValue
      requires forall i :: i in ins ==> i < bwd.nextValue
      modifies bwd
      ensures bwd.Valid({}) && bwd.nextValue == old(bwd.nextValue)
      ensures Has(bwd.node, Node(op, ins, outs)) && Within(old(bwd.node), bwd.node)
      ensures NodesAdded(old(bwd.node), bwd.node, Node(op, ins, outs))
      ensures forall v :: v in bwd.producer ==> v in old(bwd.producer) || v in outs
    {
      hide DefUse, Written;
      var id := bwd.AddNode(op, ins, outs, {});
      assert bwd.node[id] == Node(op, ins, outs);
    }

    lemma FaithfulYet()
      requires Ok()
      ensures Faithful(bwd.node, forward, s.retained, copyOf)
    {
      hide Graphs, Retention;
    }

    /** The graph part of a recomputation. */
    method CopyNode(n: NodeId) returns (ins: seq<ValueId>, outs: seq<ValueId>)
      requires Ok() && InBackward() && n in forward && n in fwd.node
      requires forall i :: 0 <= i < |forward[n].inputs| ==> forward[n].inputs[i] in s.staged
      modifies this`s, fwd, bwd
      ensures fwd.nextValue >= old(fwd.nextValue) && bwd.nextValue >= old(bwd.nextValue)
      ensures copyOf == old(copyOf)
      ensures s == old(s).(stagedInForward := s.stagedInForward, retained := s.retained)
      ensures Has(bwd.node, Node(forward[n].op, ins, outs))
      ensures Grown(old(bwd.node), old(s.retained), bwd.node, s.retained)
      ensures |outs| == |forward[n].outputs| && CopyMade(n, outs)
      ensures fwd != bwd ==> forall i :: i in ins ==> border <= i
      ensures NodesAdded(old(bwd.node), bwd.node, Node(forward[n].op, ins, outs))
      ensures AllHeldIn(s.retained, fwd != bwd, Mapped(s.staged, forward[n].inputs), ins)
      ensures forall o :: o in outs ==> old(bwd.nextValue) <= o
      ensures Goes(forward, old(bwd.node), old(s.retained), bwd.node, s.retained, old(bwd.nextValue))
      ensures Distinct(outs) && forall o :: o in outs ==> o !in copyOf
    {
      hide DefUse, Written, Below, ReadsFrom, NodesBelow, Reachable, RecomputedRetained, StillForward, Faithful,
        AllCopies;
      hide Held, CopiesGuarded, Has, Within, NodesAdded, Stand, Mapped, MoreCopies, AllHeldIn;
      hide Goes, Bounded, OnlyGuards, CopyMade;
      assert fwd.node[n] == forward[n] by { WithinAt(forward, fwd.node, n); }
      var node := fwd.node[n];
      ghost var before, retained0 := bwd.node, s.retained;
      assert forall v :: v in node.inputs ==> v in s.staged;
      HoldAll(node.inputs);
      InsFit(node.inputs);
      InputsStand(s.staged, s.retained, copyOf, node.inputs);
      ins := Mapped(s.retained, Mapped(s.staged, node.inputs));
      ghost var retained1, low := s.retained, bwd.nextValue;
      InputsHeldIn(s.staged, s.retained, fwd != bwd, node.inputs);
      AllBelow();
      FaithfulYet();
      outs := NewCopies(|node.outputs|);
      HeldInLater(retained1, s.retained, fwd != bwd, Mapped(s.staged, node.inputs), ins);
      StandLater(copyOf, retained1, s.retained, node.inputs, ins);
      ghost var producer := bwd.producer;
      AddCopy(node.op, ins, outs);
      CopyGoes(forward, before, retained1, bwd.node, s.retained, copyOf, n, ins, outs, low);
      GoesTrans(forward, before, retained0, before, retained1, bwd.node, s.retained, old(bwd.nextValue), low);
      ExtendsGrown(before, bwd.node, retained0, retained1, s.retained);
      RecomputeIsFaithful(before, bwd.node, forward, retained0, s.retained, copyOf, n, ins, outs);
      RecomputeKeepsHeld(s.retained, copyOf, producer, bwd.producer, outs, node.outputs, border, low, bwd.nextValue);
      CopyReads(before, bwd.node, Node(node.op, ins, outs), border);
      CopyWithin(forward, before, bwd.node);
      CopyIsMade(n, outs);
    }

    lemma CopyIsMade(n: NodeId, outs: seq<ValueId>)
      requires n in forward && |outs| == |forward[n].outputs|
      requires Graphs() && AllCopies(copyOf, s.staged) && Distinct(outs)
      requires forall o :: o in outs ==> o !in copyOf && o < bwd.nextValue && o in s.retained
      requires Faithful(bwd.node, forward, s.retained, MoreCopies(copyOf, outs, forward[n].outputs))
      requires CopiesGuarded(s.retained, MoreCopies(copyOf, outs, forward[n].outputs), border)
      requires if fwd == bwd then Guards(s.retained) && s.stagedInForward == {} else
            && Held(s.retained, MoreCopies(copyOf, outs, forward[n].outputs), bwd.producer, border, bwd.nextValue)
            && Reachable(s) && RecomputedRetained(forward, s) && (forall v :: v in s.stagedInForward ==> v < border)
            && (forall v :: v in forward[n].inputs ==> v in s.staged && s.staged[v] in s.retained)
      requires forall v :: v in s.retained ==> v < bwd.nextValue
      requires forall c :: c in copyOf ==> c < bwd.nextValue
      ensures CopyMade(n, outs)
    {
      hide DefUse, Written, Below, ReadsFrom, NodesBelow, Reachable, RecomputedRetained, Faithful, AllCopies, Held,
        CopiesGuarded,
        MoreCopies, Guards;
    }

    /** A node again: its inputs are read as they are staged and retained now. */
    method Recompute(n: NodeId) returns (ok: bool, ghost ins: seq<ValueId>, ghost outs: seq<ValueId>)
      requires Ok() && InBackward() && n in forward && n in fwd.node
      modifies this, fwd, bwd
      ensures ok <==> RecomputeFits(old(s.staged), forward[n])
      ensures ok ==> Ok() && InBackward()
      ensures ok ==>
        Has(bwd.node, Node(forward[n].op, ins, outs)) && Grown(old(bwd.node), old(s.retained), bwd.node, s.retained)
      ensures ok ==> (fwd != bwd ==> forall i :: i in ins ==> border <= i)
      ensures ok ==> NodesAdded(old(bwd.node), bwd.node, Node(forward[n].op, ins, outs))
      ensures ok ==> AllHeldIn(s.retained, fwd != bwd, Mapped(old(s.staged), forward[n].inputs), ins)
      ensures ok ==> forall o :: o in outs ==> old(bwd.nextValue) <= o
      ensures ok ==> Goes(forward, old(bwd.node), old(s.retained), bwd.node, s.retained, old(bwd.nextValue))
      ensures bwd.nextValue >= old(bwd.nextValue)
      ensures ok ==> s == old(s).(staged := s.staged, last := old(s.last)[n := Recomputed], retained := s.retained,
                                  stagedInForward := s.stagedInForward)
      ensures ok ==> StagedAs(old(s.staged), s.staged, forward[n].outputs, outs)
      ensures ok ==> Distinct(outs) && |outs| == |forward[n].outputs|
      ensures ok ==> copyOf == MoreCopies(old(copyOf), outs, forward[n].outputs) && Extends(old(copyOf), copyOf)
      ensures ok ==> forall o :: o in outs ==> o !in old(copyOf)
    {
      hide DefUse, Written, Below, ReadsFrom, NodesBelow, Reachable, RecomputedRetained, StillForward, Faithful,
        AllCopies;
      hide Held, CopiesGuarded, Has, Within, NodesAdded, Stand, Mapped, MoreCopies, Grown, Guards, AllHeldIn, Goes,
        StagedAs, Distinct,
        Extends, CopyMade;
      ok, ins, outs := false, [], [];
      assert fwd.node[n] == forward[n] by { WithinAt(forward, fwd.node, n); }
      var node := fwd.node[n];
      var found := AllStaged(s.staged, node.inputs);
      if !found { return; }
      OutputsBelow(fwd, n);
      var ins', outs' := CopyNode(n);
      ins, outs := ins', outs';
      var fits, staged := StageCopies(s.staged, node.outputs, outs');
      if !fits { return; }
      StageCopy(n, staged, outs');
      ok := true;
    }

    /** Node `n` has been copied and its outputs are not staged yet. */
    ghost predicate CopyMade(n: NodeId, outs: seq<ValueId>)
      requires n in forward && |outs| == |forward[n].outputs|
      reads this, fwd, bwd
    {
      var now := MoreCopies(copyOf, outs, forward[n].outputs);
      && Graphs() && AllCopies(copyOf, s.staged) && Distinct(outs)
      && (forall o :: o in outs ==> o !in copyOf && o < bwd.nextValue && o in s.retained)
      && Faithful(bwd.node, forward, s.retained, now) && CopiesGuarded(s.retained, now, border)
      && (if fwd == bwd then Guards(s.retained) && s.stagedInForward == {} else
            && Held(s.retained, now, bwd.producer, border, bwd.nextValue)
            && Reachable(s) && RecomputedRetained(forward, s) && (forall v :: v in s.stagedInForward ==> v < border)
            && (forall v :: v in forward[n].inputs ==> v in s.staged && s.staged[v] in s.retained))
      && (forall v :: v in s.retained ==> v < bwd.nextValue) && forall c :: c in copyOf ==> c < bwd.nextValue
    }

    method StageCopy(n: NodeId, staged: Values, outs: seq<ValueId>)
      requires n in forward && |outs| == |forward[n].outputs| && CopyMade(n, outs) && InBackward()
      requires StagedAs(s.staged, staged, forward[n].outputs, outs)
      modifies this
      ensures Ok() && InBackward()
      ensures s == old(s).(staged := staged, last := old(s.last)[n := Recomputed])
      ensures copyOf == MoreCopies(old(copyOf), outs, forward[n].outputs) && Extends(old(copyOf), copyOf)
    {
      hide DefUse, Written, Below, ReadsFrom, NodesBelow, Reachable, RecomputedRetained, StillForward, Faithful,
        AllCopies;
      hide Held, CopiesGuarded, Within, MoreCopies, Guards, StagedAs, Distinct, Extends;
      assert fwd.node[n] == forward[n] by { WithinAt(forward, fwd.node, n); }
      OutputsBelow(fwd, n);
      ghost var before, copyOf0 := s, copyOf;
      copyOf := MoreCopies(copyOf, outs, forward[n].outputs);
      s := s.(staged := staged, last := s.last[n := Recomputed]);
      RecomputeKeepsCopies(before.staged, staged, copyOf0, forward[n].outputs, outs);
      if fwd != bwd { RecomputeReaches(before, s, forward, n, outs); }
      RecomputedBelow(before.staged, staged, copyOf0, forward[n].outputs, outs, fwd.nextValue, bwd.nextValue);
    }

    // ---- backward computation ----

    /** A staged forward value is itself or guarded. */
    lemma StagedIs(u: ValueId)
      requires Ok() && fwd != bwd && u in s.staged
      ensures s.staged[u] in s.retained || (s.staged[u] == u && u < border)
      ensures s.staged[u] < bwd.nextValue
    {
      hide Faithful, DefUse, Written, Below, ReadsFrom, NodesBelow, Reachable, RecomputedRetained, StillForward;
      assert Copies(copyOf, u, s.staged[u]);
    }

    /** A copy, in the backward graph, of a constant. */
    method CopyConstant(op: Op) returns (r: ValueId)
      requires Ok() && fwd != bwd && s.inBackward && op.Constant?
      modifies bwd
      ensures Goes(forward, old(bwd.node), s.retained, bwd.node, s.retained, old(bwd.nextValue))
      ensures bwd.nextValue >= old(bwd.nextValue)
      ensures Ok() && border <= r && Has(bwd.node, Node(op, [], [r]))
      ensures Grown(old(bwd.node), s.retained, bwd.node, s.retained)
      ensures NodesAdded(old(bwd.node), bwd.node, Node(op, [], [r]))
      ensures r >= old(bwd.nextValue)
    {
      hide DefUse, Written, ReadsFrom, NodesBelow, Reachable, RecomputedRetained, StillForward, Faithful, Below;
      hide CopiesGuarded, Has, Within, NodesAdded, Grown, Held, AllCopies, Goes, Bounded;
      ghost var before, producer := bwd.node, bwd.producer;
      AllBelow();
      r := Emit(bwd, op, []);
      ConstantGoes(forward, before, s.retained, bwd.node, op, r);
      ExtendsGrown(before, bwd.node, s.retained, s.retained, s.retained);
      GrownIsFaithful(before, bwd.node, forward, s.retained, s.retained, copyOf);
      CopyReads(before, bwd.node, Node(op, [], [r]), border);
      NewProducer(s.retained, copyOf, producer, bwd.producer, border, r);
    }

    /** A placeholder for a forward value that the backward part reads. */
    method NewPlaceholder(v: ValueId) returns (r: ValueId)
      requires Ok() && fwd != bwd && s.inBackward && v !in s.retained && v < border
      modifies this`s, bwd`nextValue
      ensures Ok() && s == old(s).(retained := old(s.retained)[v := r]) && copyOf == old(copyOf) && border <= r
      ensures Grown(bwd.node, old(s.retained), bwd.node, s.retained)
      ensures Goes(forward, bwd.node, old(s.retained), bwd.node, s.retained, old(bwd.nextValue))
      ensures bwd.nextValue >= old(bwd.nextValue)
    {
      hide DefUse, Written, ReadsFrom, NodesBelow, Reachable, RecomputedRetained, StillForward, Faithful;
      hide CopiesGuarded, Held, AllCopies, Goes, Bounded;
      ghost var before := s;
      AllBelow();
      PlaceholderGoes(forward, bwd.node, s.retained, v, bwd.nextValue);
      r := bwd.AddValue({});
      PlaceholderKeeps(s.retained, copyOf, bwd.producer, border, r, v);
      PlaceholderIsGrown(bwd.node, s.retained, v, r);
      s := s.(retained := s.retained[v := r]);
      GrownIsFaithful(bwd.node, bwd.node, forward, before.retained, s.retained, copyOf);
      PlaceholderReaches(before, s, forward, v);
    }

    /** GradientOpContext::Retain for a staged value. */
    method RetainStaged(u: ValueId) returns (r: ValueId)
      requires Ok() && fwd != bwd && s.inBackward && u in s.staged
      modifies this`s, bwd
      ensures Ok() && s == old(s).(retained := s.retained) && copyOf == old(copyOf) && border <= r
      ensures Grown(old(bwd.node), old(s.retained), bwd.node, s.retained)
      ensures Equal(bwd.node, forward, s.retained, s.staged[u], r)
      ensures OnlyConstants(old(bwd.node), bwd.node, [r])
      ensures Goes(forward, old(bwd.node), old(s.retained), bwd.node, s.retained, old(bwd.nextValue))
      ensures bwd.nextValue >= old(bwd.nextValue)
      // A constant of either graph is copied, and any other value has one placeholder.
      ensures IsConstant(fwd.node, fwd.producer, s.staged[u]) ==>
        s.retained == old(s.retained) && r >= old(bwd.nextValue)
        && Has(bwd.node, Node(fwd.node[fwd.producer[s.staged[u]]].op, [], [r]))
      ensures !IsConstant(fwd.node, fwd.producer, s.staged[u])
              && old(IsConstant(bwd.node, bwd.producer, s.staged[u])) ==>
        s.retained == old(s.retained) && r >= old(bwd.nextValue)
        && Has(bwd.node, Node(old(bwd.node[bwd.producer[s.staged[u]]].op), [], [r]))
      ensures !IsConstant(fwd.node, fwd.producer, s.staged[u])
              && !old(IsConstant(bwd.node, bwd.producer, s.staged[u])) ==>
        bwd.node == old(bwd.node)
        && s.retained == old(s.retained)[s.staged[u] := r]
        && (s.staged[u] in old(s.retained) ==> s.retained == old(s.retained))
    {
      hide Graphs, Meaning, CopiesGuarded, Held, Has, Grown, Equal, Reachable, RecomputedRetained, StillForward,
        NodesAdded, OnlyConstants;
      hide Goes;
      GoesNowhere(forward, bwd.node, s.retained, bwd.nextValue);
      var v := s.staged[u];
      StagedIs(u);
      if IsConstant(fwd.node, fwd.producer, v) {
        ghost var c := fwd.node[fwd.producer[v]];
        HasIt(fwd.node, fwd.producer[v]);
        ForwardIs();
        r := CopyConstant(fwd.node[fwd.producer[v]].op);
        ConstantsEqual(bwd.node, forward, s.retained, c, v, r);
        OneConstant(old(bwd.node), bwd.node, c.op, r);
      } else if IsConstant(bwd.node, bwd.producer, v) {
        ghost var c := bwd.node[bwd.producer[v]];
        HasIt(bwd.node, bwd.producer[v]);
        ghost var before := bwd.node;
        r := CopyConstant(bwd.node[bwd.producer[v]].op);
        HasGrown(before, s.retained, bwd.node, s.retained, c);
        ConstantsEqual(bwd.node, forward, s.retained, c, v, r);
        OneConstant(before, bwd.node, c.op, r);
      } else if v in s.retained {
        r := s.retained[v];
        RetainedFrom(v);
        RetainedEqual(bwd.node, forward, s.retained, v);
        GrownSelf(bwd.node, s.retained);
        NoConstants(bwd.node, [r]);
      } else {
        r := NewPlaceholder(v);
        RetainedEqual(bwd.node, forward, s.retained, v);
        NoConstants(bwd.node, [r]);
      }
    }

    lemma ForwardIs()
      requires Ok() && fwd != bwd
      ensures fwd.node == forward
    {
    }

    lemma RetainedFrom(v: ValueId)
      requires Ok() && fwd != bwd && v in s.retained && s.inBackward
      ensures border <= s.retained[v]
    {
    }

    lemma BwdIsWritten()
      requires Ok()
      ensures Written(bwd.node, bwd.producer, {})
    {
    }

    /** The forward values that the gradient of a node reads, as the backward graph has them. */
    method ComputeBackward(n: NodeId, asked: seq<nat>) returns (ok: bool, given: seq<ValueId>)
      requires Ok() && n in forward && n in fwd.node && forall i :: i in asked ==> i < |Operands(forward[n])|
      modifies this`s, bwd
      ensures ok <==> BackwardFits(old(InBackward()), old(s), forward[n], n)
      ensures ok ==> Ok() && s == old(s).(retained := s.retained) && copyOf == old(copyOf)
      ensures ok ==> Grown(old(bwd.node), old(s.retained), bwd.node, s.retained)
      ensures ok ==> Supplies(bwd.node, forward, s.retained, Operands(forward[n]), asked, given, |asked|)
      ensures ok && fwd != bwd ==> forall r :: r in given ==> border <= r
      ensures ok ==> OnlyConstants(old(bwd.node), bwd.node, given)
      ensures ok ==> Goes(forward, old(bwd.node), old(s.retained), bwd.node, s.retained, old(bwd.nextValue))
      ensures bwd.nextValue >= old(bwd.nextValue)
      // What is staged for a node in its own graph is read as it is.
      ensures ok && (fwd == bwd || s.last[n] == Recomputed) ==>
        bwd.node == old(bwd.node) && s == old(s) && |given| == |asked|
        && ReadAsStaged(s, Operands(forward[n]), asked, given)
      // Constants of either graph are not retained here.
      ensures ok && fwd != bwd ==> MorePlain(fwd.node, fwd.producer, old(s.retained), s.retained)
      ensures ok && fwd != bwd ==> MorePlain(old(bwd.node), old(bwd.producer), old(s.retained), s.retained)
    {
      hide Meaning, Retention, Grown, Equal, Has, Supplies, fwd.Valid, bwd.Valid, ReadsFrom, NodesBelow, OnlyConstants,
        Goes, IsConstant;
      ok, given := false, [];
      assert fwd.node[n] == forward[n] by { WithinAt(forward, fwd.node, n); }
      var operands := fwd.node[n].inputs + fwd.node[n].outputs;
      assert operands == Operands(fwd.node[n]);
      var found := AllStaged(s.staged, operands);
      if (fwd != bwd && !s.inBackward) || n !in s.last || !found { return; }
      SuppliesNone(bwd.node, forward, s.retained, operands, asked);
      GrownSelf(bwd.node, s.retained);
      NoConstants(bwd.node, given);
      GoesNowhere(forward, bwd.node, s.retained, bwd.nextValue);
      var i := 0;
      while i < |asked|
        modifies this`s, bwd
        invariant 0 <= i <= |asked| == |asked| && |given| == i && Ok() && s == old(s).(retained := s.retained)
        invariant copyOf == old(copyOf)
        invariant Grown(old(bwd.node), old(s.retained), bwd.node, s.retained)
        invariant Supplies(bwd.node, forward, s.retained, operands, asked, given, i)
        invariant fwd != bwd ==> forall r :: r in given ==> border <= r
        invariant OnlyConstants(old(bwd.node), bwd.node, given)
        invariant Goes(forward, old(bwd.node), old(s.retained), bwd.node, s.retained, old(bwd.nextValue))
        invariant bwd.nextValue >= old(bwd.nextValue)
        invariant fwd == bwd || s.last[n] == Recomputed ==>
          bwd.node == old(bwd.node) && s == old(s) && ReadAsStaged(s, operands, asked, given)
        invariant fwd != bwd ==> MorePlain(fwd.node, fwd.producer, old(s.retained), s.retained)
        invariant fwd != bwd ==> MorePlain(old(bwd.node), old(bwd.producer), old(s.retained), s.retained)
      {
        ghost var node, retained, high := bwd.node, s.retained, bwd.nextValue;
        BwdIsWritten();
        GrownNodes(old(bwd.node), old(s.retained), node, retained);
        ConstantsStay(old(bwd.node), old(bwd.producer), node, bwd.producer, retained);
        assert asked[i] in asked;
        var u := operands[asked[i]];
        var r;
        if fwd != bwd && s.last[n] == Original {
          r := RetainStaged(u);
          GrownTrans(old(bwd.node), old(s.retained), node, retained, bwd.node, s.retained);
          GoesTrans(forward, old(bwd.node), old(s.retained), node, retained, bwd.node, s.retained, old(bwd.nextValue),
                    high);
        } else {
          r := MapOr(s.retained, s.staged[u]);
          GrownSelf(node, retained);
          MappedEqual(n, u);
          NoConstants(node, [r]);
        }
        ConstantsMore(old(bwd.node), node, retained, bwd.node, s.retained, given, r);
        StagedEqual(u, r);
        SuppliesMore(node, bwd.node, forward, retained, s.retained, operands, asked, given, i, r);
        given := given + [r];
        i := i + 1;
      }
      ok := true;
    }

    /** What holds a recomputed node's operand now. */
    lemma MappedEqual(n: NodeId, u: ValueId)
      requires Ok() && InBackward() && u in s.staged && n in s.last && n in forward && Mentions(forward[n], u)
      requires fwd == bwd || s.last[n] == Recomputed
      ensures Equal(bwd.node, forward, s.retained, s.staged[u], MapOr(s.retained, s.staged[u]))
      ensures fwd != bwd ==> border <= MapOr(s.retained, s.staged[u])
    {
      hide Consistent, Graphs, Meaning;
      if s.staged[u] in s.retained { RetainedEqual(bwd.node, forward, s.retained, s.staged[u]); }
    }

    lemma StagedEqual(u: ValueId, r: ValueId)
      requires Ok() && u in s.staged && Equal(bwd.node, forward, s.retained, s.staged[u], r)
      ensures Equal(bwd.node, forward, s.retained, u, r)
    {
      hide Graphs, Retention, Faithful, Consistent;
      assert Copies(copyOf, u, s.staged[u]);
      forall kernels: Kernels, env: Env | Consistent(kernels, bwd.node, forward, s.retained, env)
        ensures env(r) == env(u)
      {
        FaithfulHere(kernels, bwd.node, forward, s.retained, copyOf, env);
      }
    }

    // ---- forgetting ----

    method Forget(v: ValueId) returns (ok: bool)
      requires Ok()
      modifies this`s
      ensures ok <==> v in old(s.staged)
      ensures ok ==> Ok() && s == old(s).(staged := old(s.staged) - {v}) && copyOf == old(copyOf)
    {
      hide Faithful, DefUse, Written, Below, ReadsFrom, NodesBelow, Held, CopiesGuarded;
      if v !in s.staged { return false; }
      s := s.(staged := s.staged - {v});
      ok := true;
    }

    // ---- the main loop ----

    method MarkScheduled(n: NodeId)
      requires Ok()
      modifies this`s
      ensures Ok() && copyOf == old(copyOf) && s == old(s).(scheduledForward := old(s.scheduledForward) + {n})
    {
      hide Faithful, DefUse, Written, Below, ReadsFrom, NodesBelow, Held, CopiesGuarded;
      s := s.(scheduledForward := s.scheduledForward + {n});
    }

    /** One order; false when a check fails.  `p` is how far the orders have come, `log` what has been
        made for them. */
    method Step(order: Order, ghost p: Progress, ghost log: Log) returns (ok: bool, ghost log': Log)
      requires Ok() && Known(order, forward) && Shows(p, s, log, fwd != bwd)
      modifies this, fwd, bwd
      ensures ok <==> Accepts(Switched(p, outputs, fwd != bwd), order, forward, fwd != bwd)
      ensures ok ==> Ok() && Grown(old(bwd.node), old(s.retained), bwd.node, s.retained) && Extends(old(copyOf), copyOf)
      ensures ok ==> Shows(Done(Switched(p, outputs, fwd != bwd), order, forward, fwd != bwd), s, log', fwd != bwd)
      ensures ok ==> Logged(old(bwd.node), bwd.node, forward, s.retained, copyOf, log, log')
      ensures ok ==>
        && Goes(forward, old(bwd.node), old(s.retained), bwd.node, s.retained, old(bwd.nextValue))
        && bwd.nextValue >= old(bwd.nextValue)
    {
      hide Graphs, Meaning, Retention, Grown, RecomputeFits, FirstFits, BackwardFits, Supplies, Has, MoreCopies,
        StagedAs, StagedThemselves;
      hide Accepts, Done, Switched, Shows, Logged, NodesAdded, OnlyConstants, AllHeldIn, Mapped, Goes;
      GoesNowhere(forward, bwd.node, s.retained, bwd.nextValue);
      ghost var two := fwd != bwd;
      ghost var q := Switched(p, outputs, two);
      log' := log;
      ghost var s0 := s;
      Switch();
      ShowsSwitched(p, s0, s, log, outputs, two);
      GrownSelf(bwd.node, s.retained);
      NothingAdded(bwd.node, forward, s.retained, copyOf, log);
      ghost var s1, node := s, bwd.node;
      match order
      case ComputeForward(n) =>
        KnownNode(n);
        ComputeAccepted(q, s, log, n, forward, two);
        if n !in s.scheduledForward {
          MarkScheduled(n);
          if fwd != bwd && s.inBackward { return false, log'; }
          ok := ComputeFirst(n);
          if ok { FirstShows(q, s1, s, log, n, forward, two); }
        } else {
          if fwd != bwd && !s.inBackward { return false, log'; }
          ghost var ins, outs;
          OperandsBelow(n);
          ok, ins, outs := Recompute(n);
          if ok {
            log' := log.(copies := log.copies + [Copy(n, Mapped(s1.staged, forward[n].inputs), ins, outs)]);
            GrownExtends(node, s1.retained, bwd.node, s.retained);
            NewOutputs(outs, forward[n].outputs, old(bwd.nextValue));
            AgainShows(q, s1, s, log, n, ins, outs, forward, two);
            CopyAdded(node, bwd.node, forward, s.retained, old(copyOf), log, n, Mapped(s1.staged, forward[n].inputs),
                      ins, outs);
          }
        }
      case ComputeBackward(n, asked) =>
        KnownNode(n);
        BackwardAccepted(q, s, log, n, asked, forward, two, InBackward());
        var given;
        ok, given := ComputeBackward(n, asked);
        if ok {
          log' := log.(supplies := log.supplies + [Supply(n, asked, given)]);
          GrownExtends(node, s1.retained, bwd.node, s.retained);
          BackwardShows(q, s1, s, log, n, asked, given, forward, two);
          SupplyAdded(node, bwd.node, forward, s.retained, copyOf, log, n, asked, given);
        }
      case ForgetForward(v) =>
        ForgetAccepted(q, s, log, v, forward, two);
        ok := Forget(v);
        if ok { ForgetShows(q, s1, s, log, v, forward, two); }
      case ForgetBackward =>
        ok := true;
        ForgetBackwardShows(q, s, log, forward, two);
    }

    lemma OperandsBelow(n: NodeId)
      requires Ok() && n in forward && n in fwd.node && fwd.node[n] == forward[n]
      ensures forall v :: v in forward[n].outputs ==> v < bwd.nextValue
    {
      hide Meaning, Retention;
      OutputsBelow(fwd, n);
    }

    lemma FirstIsForward()
      requires Ok()
      ensures fwd != bwd ==> fwd.node == forward
    {
      hide Meaning, Retention;
    }

    lemma MeaningNow()
      requires Ok()
      ensures Faithful(bwd.node, forward, s.retained, copyOf) && AllCopies(copyOf, s.staged)
    {
      hide Graphs, Retention;
    }

    lemma KnownNode(n: NodeId)
      requires Ok() && n in forward
      ensures n in fwd.node && fwd.node[n] == forward[n]
    {
      hide Meaning, Retention;
    }

    /** The placeholders become inputs of the backward graph. */
    method AddRetainedParts() returns (feeds: Feeds, ghost carried: Carried)
      requires Ok()
      modifies fwd, bwd
      ensures fwd.Valid({}) && bwd.Valid({}) && Follows(forward, old(bwd.node), s.retained, fwd.node, bwd.node, feeds)
      ensures Within(old(fwd.node), fwd.node) && Within(old(bwd.node), bwd.node)
      ensures fwd != bwd ==> ReadsFrom(bwd.node, border)
      ensures carried.Values == (if fwd != bwd then Parts(s.retained).Keys else {})
      ensures OnlyCrossing(old(fwd.node), old(bwd.node), fwd.node, bwd.node, feeds, carried, s.retained, fwd != bwd)
      ensures GoesJointly(forward, old(bwd.node), s.retained, fwd.node, bwd.node, feeds, old(bwd.nextValue))
    {
      hide Faithful, DefUse, Written, Below, ReadsFrom, NodesBelow, Reachable, RecomputedRetained, AllCopies, Within,
        Follows, AllCross;
      hide OnlyCrossing, Carriage, GoesJointly, Bounded;
      ghost var node, first := bwd.node, fwd.node;
      AllBelow();
      feeds, carried := map[], map[];
      if fwd != bwd {
        var parts := map v | v in s.retained && s.retained[v] != v :: s.retained[v];
        assert parts == Parts(s.retained);
        PartsCross();
        ghost var low := Top(fwd, bwd);
        feeds, carried := RetainOutputs(fwd, bwd, parts, border);
        NothingLeft(fwd.node, bwd.node, feeds, parts);
        PartsFollow(forward, fwd.node, node, bwd.node, feeds, s.retained);
        PartsGo(forward, node, fwd.node, bwd.node, feeds, carried, s.retained, low, Top(fwd, bwd));
        CarriageCrosses(first, node, fwd.node, bwd.node, feeds, carried, s.retained, low, Top(fwd, bwd));
      } else {
        WithinItself(node);
        GuardsFollow(forward, node, s.retained);
        GuardsGo(forward, node, s.retained, bwd.nextValue);
        NothingCrosses(first, node, s.retained);
      }
    }

    lemma PartsCross()
      requires Ok() && fwd != bwd
      ensures Crossing(fwd, bwd, map[], Parts(s.retained), Parts(s.retained).Keys, border)
    {
      hide Faithful, DefUse, Written, Below, ReadsFrom, NodesBelow, Reachable, RecomputedRetained, AllCopies;
    }

    /** The whole pass: false exactly when an order is refused.  `log` is what has been made for the
        orders, `carried` what crosses over to the backward graph. */
    method AddGradientNodesForTrainingWithOrders(orders: seq<Order>)
      returns (ok: bool, feeds: Feeds, ghost log: Log, ghost carried: Carried)
      requires Ok() && forall i :: 0 <= i < |orders| ==> Known(orders[i], forward)
      modifies this, fwd, bwd
      ensures ok <==> Course(Beginning(old(s)), orders, forward, outputs, fwd != bwd).Reached?
      ensures ok ==> Shows(Course(Beginning(old(s)), orders, forward, outputs, fwd != bwd).progress, s, log, fwd != bwd)
      ensures ok ==> AllFaithful(fwd.node, bwd.node, feeds, copyOf, s.staged) && Extends(old(copyOf), copyOf)
      // Every copy is there, every gradient is given what it asks for, and nothing else is added.
      ensures ok ==>
        AllThere(bwd.node, forward, copyOf, log.copies) && AllSupplied(fwd.node, bwd.node, feeds, forward, log.supplies)
      ensures ok ==> OnlyLogged(old(bwd.node), bwd.node, forward, s.retained, log, carried)
      ensures ok && fwd != bwd ==>
        OnlyLeaving(forward, fwd.node, feeds, carried) && carried.Values == Parts(s.retained).Keys
      ensures ok && fwd == bwd ==> carried == map[]
      ensures ok && fwd != bwd ==> ReadsFrom(bwd.node, border)
      ensures ok ==> fwd.Valid({}) && bwd.Valid({}) && Within(old(bwd.node), bwd.node)
      // Every run of the forward graph and of what was in the other one before goes on.
      ensures ok ==> GoesJointly(forward, old(bwd.node), old(s.retained), fwd.node, bwd.node, feeds, old(bwd.nextValue))
    {
      hide Goes, GoesJointly, Graphs, Meaning, Retention, Grown, Known, AllFaithful, Within, Course, Switched, Accepts,
        Done, Shows, Logged, Beginning;
      hide AllThere, AllSupplied, OnlyLogged, OnlyLeaving, Follows, OnlyCrossing, Parts;
      ghost var two, p0, p := fwd != bwd, Beginning(s), Beginning(s);
      ok, feeds, log, carried := false, map[], Log([], []), map[];
      var i := 0;
      GrownSelf(bwd.node, s.retained);
      BeginningShows(s, two);
      CourseEmpty(p0, orders, forward, outputs, two);
      NothingAdded(bwd.node, forward, s.retained, copyOf, log);
      GoesNowhere(forward, bwd.node, s.retained, bwd.nextValue);
      while i < |orders|
        invariant 0 <= i <= |orders| && Ok() && Extends(old(copyOf), copyOf)
        invariant Grown(old(bwd.node), old(s.retained), bwd.node, s.retained)
        invariant Course(p0, orders[..i], forward, outputs, two) == Reached(p) && Shows(p, s, log, two)
        invariant Logged(old(bwd.node), bwd.node, forward, s.retained, copyOf, Log([], []), log)
        invariant Goes(forward, old(bwd.node), old(s.retained), bwd.node, s.retained, old(bwd.nextValue))
        invariant bwd.nextValue >= old(bwd.nextValue)
      {
        ghost var node, retained, copyOf0, log0, high := bwd.node, s.retained, copyOf, log, bwd.nextValue;
        CourseMore(p0, orders, forward, outputs, two, i);
        var done;
        done, log := Step(orders[i], p, log);
        if !done {
          RefusedStays(p0, orders, forward, outputs, two, i + 1);
          return;
        }
        p := Done(Switched(p, outputs, two), orders[i], forward, two);
        AddedTrans(old(bwd.node), node, retained, bwd.node, s.retained, forward, copyOf0, copyOf, Log([], []), log0,
                   log);
        GrownTrans(old(bwd.node), old(s.retained), node, retained, bwd.node, s.retained);
        GoesTrans(forward, old(bwd.node), old(s.retained), node, retained, bwd.node, s.retained, old(bwd.nextValue),
                  high);
        i := i + 1;
      }
      assert orders[..i] == orders;
      GrownIsWithin(old(bwd.node), old(s.retained), bwd.node, s.retained);
      ghost var node := bwd.node;
      ghost var first, kept, high := fwd.node, s.retained, bwd.nextValue;
      FirstIsForward();
      MeaningNow();
      feeds, carried := AddRetainedParts();
      WithinTrans(old(bwd.node), node, bwd.node);
      GoesToTheEnd(forward, old(bwd.node), old(s.retained), node, kept, fwd.node, bwd.node, feeds, old(bwd.nextValue),
                   high);
      FaithfulNow(forward, node, kept, fwd.node, bwd.node, feeds, copyOf, s.staged);
      LoggedNow(old(bwd.node), node, bwd.node, forward, kept, copyOf, log, first, fwd.node, feeds, carried, two);
      NothingCarriedIn(carried, two);
      ok := true;
    }
  }

  lemma BoundedNow(forward: map<NodeId, Node>, node: map<NodeId, Node>, retained: Values, copyOf: Values,
                   producer: map<ValueId, NodeId>, border: nat, bound: nat)
    requires NodesBelow(node, bound) && (Within(forward, node) || (NodesBelow(forward, border) && border <= bound))
    requires Guards(retained) || Held(retained, copyOf, producer, border, bound)
    requires forall v :: v in retained ==> v < bound
    ensures Bounded(forward, node, retained, bound)
  {
  }

  // ---- what has been made ----

  datatype Log = Log(copies: seq<Copy>, supplies: seq<Supply>)

  ghost function Beginning(s: State): Progress {
    Progress(map v | v in s.staged :: Itself(s.staged[v]), s.scheduledForward, s.last, s.inBackward, [], [])
  }

  ghost predicate Denotes(source: Source, copies: seq<Copy>, v: ValueId) {
    match source
    case Itself(w) => v == w
    case Output(k, i) => k < |copies| && i < |copies[k].outputs| && copies[k].outputs[i] == v
  }

  /** What is staged is what the orders say, and the recomputations have read what they say. */
  ghost predicate Shows(p: Progress, s: State, log: Log, two: bool) {
    && p.staged.Keys == s.staged.Keys
    && (forall v :: v in p.staged ==>
          Denotes(p.staged[v], log.copies, s.staged[v]) && (p.staged[v].Output? ==> s.staged[v] != v))
    && p.scheduled == s.scheduledForward && p.last == s.last && p.inBackward == s.inBackward
    && AllMade(p.redos, log.copies, s.retained, two) && AllGiven(p.backs, log.supplies)
  }

  ghost predicate AllMade(redos: seq<Redo>, copies: seq<Copy>, retained: Values, two: bool) {
    |copies| == |redos| && forall k :: 0 <= k < |redos| ==> Made(redos[k], copies[k], copies, retained, two)
  }

  ghost predicate Made(redo: Redo, copy: Copy, copies: seq<Copy>, retained: Values, two: bool) {
    && copy.node == redo.node && |copy.values| == |redo.inputs|
    && (forall i :: 0 <= i < |redo.inputs| ==> Denotes(redo.inputs[i], copies, copy.values[i]))
    && AllHeldIn(retained, two, copy.values, copy.inputs)
  }

  ghost predicate AllGiven(backs: seq<Back>, supplies: seq<Supply>) {
    && |supplies| == |backs|
    && forall k :: 0 <= k < |backs| ==>
      supplies[k].node == backs[k].node && supplies[k].asked == backs[k].asked
  }

  /** What has been added between two logs: the new copies are there, the new supplies hold the
      values they are for, and there is nothing else. */
  ghost predicate Logged(before: map<NodeId, Node>, after: map<NodeId, Node>, forward: map<NodeId, Node>,
                         retained: Values, copyOf: Values, log: Log, log': Log) {
    && log.copies <= log'.copies && log.supplies <= log'.supplies
    && (forall k :: |log.copies| <= k < |log'.copies| ==> IsThere(after, forward, copyOf, log'.copies[k]))
    && (forall k :: |log.supplies| <= k < |log'.supplies| ==> IsSupplied(after, forward, retained, log'.supplies[k]))
    && (forall n :: n in after && n !in before ==> IsMade(after[n], forward, log'))
  }

  /** The copy of a node, with the originals of its outputs. */
  ghost predicate IsThere(node: map<NodeId, Node>, forward: map<NodeId, Node>, copyOf: Values, c: Copy) {
    && c.node in forward && Has(node, Node(forward[c.node].op, c.inputs, c.outputs))
    && |c.outputs| == |forward[c.node].outputs|
    && forall i :: 0 <= i < |c.outputs| ==> c.outputs[i] in copyOf && copyOf[c.outputs[i]] == forward[c.node].outputs[i]
  }

  ghost predicate IsSupplied(node: map<NodeId, Node>, forward: map<NodeId, Node>, retained: Values, u: Supply) {
    u.node in forward && Supplies(node, forward, retained, Operands(forward[u.node]), u.asked, u.given, |u.asked|)
  }

  /** A node made for an order: a copy, or a constant that a gradient is given. */
  ghost predicate IsMade(n: Node, forward: map<NodeId, Node>, log: Log) {
    || (exists k :: 0 <= k < |log.copies| && log.copies[k].node in forward
          && n == Node(forward[log.copies[k].node].op, log.copies[k].inputs, log.copies[k].outputs))
    || (exists k :: 0 <= k < |log.supplies| && GivenConstant(n, log.supplies[k].given))
  }

  lemma BeginningShows(s: State, two: bool)
    ensures Shows(Beginning(s), s, Log([], []), two)
  {
  }

  lemma CourseEmpty(p: Progress, orders: seq<Order>, forward: map<NodeId, Node>, outputs: seq<ValueId>, two: bool)
    ensures Course(p, orders[..0], forward, outputs, two) == Reached(p)
  {
  }

  lemma NothingAdded(node: map<NodeId, Node>, forward: map<NodeId, Node>, retained: Values, copyOf: Values, log: Log)
    ensures Logged(node, node, forward, retained, copyOf, log, log)
  {
  }

  lemma GrownExtends(node: map<NodeId, Node>, retained: Values, node': map<NodeId, Node>, retained': Values)
    requires Grown(node, retained, node', retained')
    ensures Extends(retained, retained')
  {
  }

  lemma ShowsSwitched(p: Progress, s: State, s': State, log: Log, outputs: seq<ValueId>, two: bool)
    requires Shows(p, s, log, two) && s' == s.(inBackward := s'.inBackward, stagedInForward := s'.stagedInForward)
    requires s'.inBackward == (s.inBackward || (two && forall o :: o in outputs ==> o in s.staged))
    ensures Shows(Switched(p, outputs, two), s', log, two)
  {
    hide AllMade, AllGiven, Denotes;
    assert forall o :: o in outputs ==> (o in p.staged.Keys <==> o in s.staged.Keys);
  }

  lemma MadeLater(redos: seq<Redo>, copies: seq<Copy>, copies': seq<Copy>, retained: Values, retained': Values,
                  two: bool)
    requires |copies| == |redos| && copies <= copies' && Extends(retained, retained')
    requires AllMade(redos, copies, retained, two)
    ensures forall k :: 0 <= k < |redos| ==> Made(redos[k], copies[k], copies', retained', two)
  {
    hide AllHeldIn;
    forall k | 0 <= k < |redos| ensures Made(redos[k], copies[k], copies', retained', two) {
      assert Made(redos[k], copies[k], copies, retained, two);
      HeldInLater(retained, retained', two, copies[k].values, copies[k].inputs);
    }
  }

  lemma ComputeAccepted(p: Progress, s: State, log: Log, n: NodeId, forward: map<NodeId, Node>, two: bool)
    requires n in forward && Shows(p, s, log, two)
    ensures Accepts(p, ComputeForward(n), forward, two) <==>
      if n in s.scheduledForward then (!two || s.inBackward) && RecomputeFits(s.staged, forward[n])
      else (!two || !s.inBackward) && FirstFits(s.staged, forward[n])
  {
    hide AllMade, AllGiven;
    assert forall v :: v in p.staged.Keys <==> v in s.staged.Keys;
  }

  lemma FirstShows(p: Progress, s: State, s': State, log: Log, n: NodeId, forward: map<NodeId, Node>, two: bool)
    requires n in forward && n !in s.scheduledForward && Shows(p, s, log, two)
    requires Accepts(p, ComputeForward(n), forward, two)
    requires s' == s.(scheduledForward := s.scheduledForward + {n}, staged := s'.staged, last := s.last[n := Original])
    requires StagedThemselves(s.staged, s'.staged, forward[n].outputs)
    ensures Shows(Done(p, ComputeForward(n), forward, two), s', log, two)
  {
    hide AllMade, AllGiven, Accepts;
    assert forall v :: v in p.staged.Keys <==> v in s.staged.Keys;
  }

  lemma AgainShows(p: Progress, s: State, s': State, log: Log, n: NodeId, ins: seq<ValueId>, outs: seq<ValueId>,
                   forward: map<NodeId, Node>, two: bool)
    requires n in forward && n in s.scheduledForward && Shows(p, s, log, two)
    requires Accepts(p, ComputeForward(n), forward, two)
    requires s' == s.(staged := s'.staged, last := s.last[n := Recomputed], retained := s'.retained,
                      stagedInForward := s'.stagedInForward)
    requires StagedAs(s.staged, s'.staged, forward[n].outputs, outs) && Extends(s.retained, s'.retained)
    requires AllHeldIn(s'.retained, two, Mapped(s.staged, forward[n].inputs), ins)
    requires forall i :: 0 <= i < |outs| && i < |forward[n].outputs| ==> outs[i] != forward[n].outputs[i]
    ensures Shows(Done(p, ComputeForward(n), forward, two), s',
                  log.(copies := log.copies + [Copy(n, Mapped(s.staged, forward[n].inputs), ins, outs)]), two)
  {
    hide AllGiven, AllHeldIn, Made, Denotes, StagedAs, Restaged, Mapped;
    assert forall v :: v in p.staged.Keys <==> v in s.staged.Keys;
    AgainMade(p, s, s', log.copies, n, ins, outs, forward, two);
    AgainStaged(p.staged, s.staged, s'.staged, log.copies, Copy(n, Mapped(s.staged, forward[n].inputs), ins, outs),
                forward[n].outputs);
  }

  lemma AgainStaged(staged: map<ValueId, Source>, before: Values, after: Values, copies: seq<Copy>, c: Copy,
                    outputs: seq<ValueId>)
    requires staged.Keys == before.Keys && StagedAs(before, after, outputs, c.outputs)
    requires forall v :: v in staged ==> Denotes(staged[v], copies, before[v]) && (staged[v].Output? ==> before[v] != v)
    requires forall i :: 0 <= i < |c.outputs| && i < |outputs| ==> c.outputs[i] != outputs[i]
    ensures var staged' := Restaged(staged, outputs, |copies|);
      && staged'.Keys == after.Keys
      && forall v :: v in staged' ==>
           Denotes(staged'[v], copies + [c], after[v]) && (staged'[v].Output? ==> after[v] != v)
  {
    var staged' := Restaged(staged, outputs, |copies|);
    forall v | v in staged'
      ensures v in after && Denotes(staged'[v], copies + [c], after[v]) && (staged'[v].Output? ==> after[v] != v)
    {
      if v !in outputs { assert v in before && Denotes(staged[v], copies, before[v]); }
    }
    assert forall v :: v in after ==> v in before.Keys || v in outputs;
  }

  lemma NewOutputs(outs: seq<ValueId>, outputs: seq<ValueId>, low: nat)
    requires |outs| == |outputs| && (forall o :: o in outs ==> low <= o) && forall v :: v in outputs ==> v < low
    ensures forall i :: 0 <= i < |outs| && i < |outputs| ==> outs[i] != outputs[i]
  {
    forall i | 0 <= i < |outs| ensures outs[i] != outputs[i] { assert outs[i] in outs && outputs[i] in outputs; }
  }

  lemma AgainMade(p: Progress, s: State, s': State, copies: seq<Copy>, n: NodeId, ins: seq<ValueId>, outs: seq<ValueId>,
                  forward: map<NodeId, Node>, two: bool)
    requires n in forward && AllMade(p.redos, copies, s.retained, two) && Extends(s.retained, s'.retained)
    requires forall i :: 0 <= i < |forward[n].inputs| ==>
      forward[n].inputs[i] in p.staged && forward[n].inputs[i] in s.staged
    requires forall v :: v in p.staged && v in s.staged ==> Denotes(p.staged[v], copies, s.staged[v])
    requires AllHeldIn(s'.retained, two, Mapped(s.staged, forward[n].inputs), ins)
    ensures AllMade(p.redos + [Redo(n, Sources(p.staged, forward[n].inputs))],
                    copies + [Copy(n, Mapped(s.staged, forward[n].inputs), ins, outs)], s'.retained, two)
  {
    hide AllHeldIn;
    var c := Copy(n, Mapped(s.staged, forward[n].inputs), ins, outs);
    var redo := Redo(n, Sources(p.staged, forward[n].inputs));
    MadeLater(p.redos, copies, copies + [c], s.retained, s'.retained, two);
    forall i | 0 <= i < |redo.inputs| ensures Denotes(redo.inputs[i], copies + [c], c.values[i]) {
      assert Denotes(redo.inputs[i], copies, s.staged[forward[n].inputs[i]]);
    }
  }

  lemma BackwardAccepted(p: Progress, s: State, log: Log, n: NodeId, asked: seq<nat>, forward: map<NodeId, Node>,
                         two: bool, inBackward: bool)
    requires n in forward && Known(ComputeBackward(n, asked), forward) && Shows(p, s, log, two)
    requires inBackward == (!two || s.inBackward)
    ensures Accepts(p, ComputeBackward(n, asked), forward, two) <==> BackwardFits(inBackward, s, forward[n], n)
  {
    hide AllMade, AllGiven;
    assert forall v :: v in p.staged.Keys <==> v in s.staged.Keys;
  }

  lemma BackwardShows(p: Progress, s: State, s': State, log: Log, n: NodeId, asked: seq<nat>, given: seq<ValueId>,
                      forward: map<NodeId, Node>, two: bool)
    requires n in forward && Known(ComputeBackward(n, asked), forward) && Shows(p, s, log, two)
    requires Accepts(p, ComputeBackward(n, asked), forward, two) && s' == s.(retained := s'.retained)
    requires Extends(s.retained, s'.retained)
    ensures Shows(Done(p, ComputeBackward(n, asked), forward, two), s',
                  log.(supplies := log.supplies + [Supply(n, asked, given)]), two)
  {
    hide Accepts, Made;
    MadeLater(p.redos, log.copies, log.copies, s.retained, s'.retained, two);
  }

  lemma ForgetAccepted(p: Progress, s: State, log: Log, v: ValueId, forward: map<NodeId, Node>, two: bool)
    requires Shows(p, s, log, two)
    ensures Accepts(p, ForgetForward(v), forward, two) <==> v in s.staged
  {
    hide AllMade, AllGiven;
    assert v in p.staged.Keys <==> v in s.staged.Keys;
  }

  lemma ForgetShows(p: Progress, s: State, s': State, log: Log, v: ValueId, forward: map<NodeId, Node>, two: bool)
    requires Shows(p, s, log, two) && Accepts(p, ForgetForward(v), forward, two) && s' == s.(staged := s.staged - {v})
    ensures Shows(Done(p, ForgetForward(v), forward, two), s', log, two)
  {
    hide AllMade, AllGiven, Accepts;
    assert forall w :: w in p.staged.Keys <==> w in s.staged.Keys;
  }

  lemma ForgetBackwardShows(p: Progress, s: State, log: Log, forward: map<NodeId, Node>, two: bool)
    requires Shows(p, s, log, two)
    ensures Accepts(p, ForgetBackward, forward, two) && Shows(Done(p, ForgetBackward, forward, two), s, log, two)
  {
  }

  lemma CopyAdded(before: map<NodeId, Node>, after: map<NodeId, Node>, forward: map<NodeId, Node>, retained: Values,
                  copyOf: Values, log: Log, n: NodeId, values: seq<ValueId>, ins: seq<ValueId>, outs: seq<ValueId>)
    requires n in forward && Has(after, Node(forward[n].op, ins, outs))
    requires NodesAdded(before, after, Node(forward[n].op, ins, outs))
    requires |outs| == |forward[n].outputs| && Distinct(outs) && forall o :: o in outs ==> o !in copyOf
    ensures Logged(before, after, forward, retained, MoreCopies(copyOf, outs, forward[n].outputs), log,
                  log.(copies := log.copies + [Copy(n, values, ins, outs)]))
  {
    hide Has, MoreCopies, IsSupplied;
    MoreCopiesAt(copyOf, outs, forward[n].outputs);
    var log' := log.(copies := log.copies + [Copy(n, values, ins, outs)]);
    assert log'.copies[|log.copies|] == Copy(n, values, ins, outs);
  }

  lemma SupplyAdded(before: map<NodeId, Node>, after: map<NodeId, Node>, forward: map<NodeId, Node>, retained: Values,
                    copyOf: Values, log: Log, n: NodeId, asked: seq<nat>, given: seq<ValueId>)
    requires n in forward && OnlyConstants(before, after, given)
    requires Supplies(after, forward, retained, Operands(forward[n]), asked, given, |asked|)
    ensures Logged(before, after, forward, retained, copyOf, log,
                   log.(supplies := log.supplies + [Supply(n, asked, given)]))
  {
    hide Supplies, IsThere, GivenConstant;
    var log' := log.(supplies := log.supplies + [Supply(n, asked, given)]);
    assert log'.supplies[|log.supplies|] == Supply(n, asked, given);
  }

  lemma AddedTrans(a: map<NodeId, Node>, b: map<NodeId, Node>, retained: Values, c: map<NodeId, Node>,
                   retained': Values, forward: map<NodeId, Node>, copyOf: Values, copyOf': Values, log0: Log, log1: Log,
                   log2: Log)
    requires Logged(a, b, forward, retained, copyOf, log0, log1)
    requires Logged(b, c, forward, retained', copyOf', log1, log2)
    requires Grown(b, retained, c, retained') && Extends(copyOf, copyOf')
    ensures Logged(a, c, forward, retained', copyOf', log0, log2)
  {
    hide IsThere, IsSupplied, IsMade, Grown, Extends;
    forall k | |log0.copies| <= k < |log2.copies| ensures IsThere(c, forward, copyOf', log2.copies[k]) {
      if k < |log1.copies| { IsThereStill(b, retained, c, retained', forward, copyOf, copyOf', log1.copies[k]); }
    }
    forall k | |log0.supplies| <= k < |log2.supplies| ensures IsSupplied(c, forward, retained', log2.supplies[k]) {
      if k < |log1.supplies| { IsSuppliedStill(b, retained, c, retained', forward, log1.supplies[k]); }
    }
    forall n | n in c && n !in a ensures IsMade(c[n], forward, log2) {
      if n in b { IsMadeStill(b, retained, c, retained', n, forward, log1, log2); }
    }
  }

  lemma IsThereStill(node: map<NodeId, Node>, retained: Values, node': map<NodeId, Node>, retained': Values,
                     forward: map<NodeId, Node>, copyOf: Values, copyOf': Values, c: Copy)
    requires IsThere(node, forward, copyOf, c) && Grown(node, retained, node', retained') && Extends(copyOf, copyOf')
    ensures IsThere(node', forward, copyOf', c)
  {
  }

  lemma IsSuppliedStill(node: map<NodeId, Node>, retained: Values, node': map<NodeId, Node>, retained': Values,
                        forward: map<NodeId, Node>, u: Supply)
    requires IsSupplied(node, forward, retained, u) && Grown(node, retained, node', retained')
    ensures IsSupplied(node', forward, retained', u)
  {
    hide Equal, Grown;
    var operands := Operands(forward[u.node]);
    forall i | 0 <= i < |u.asked| ensures Equal(node', forward, retained', operands[u.asked[i]], u.given[i]) {
      EqualGrown(node, node', forward, retained, retained', operands[u.asked[i]], u.given[i]);
    }
  }

  lemma IsMadeStill(node: map<NodeId, Node>, retained: Values, node': map<NodeId, Node>, retained': Values, n: NodeId,
                    forward: map<NodeId, Node>, log: Log, log': Log)
    requires n in node && IsMade(node[n], forward, log) && Grown(node, retained, node', retained')
    requires log.copies <= log'.copies && log.supplies <= log'.supplies
    ensures n in node' && IsMade(node'[n], forward, log')
  {
    hide GivenConstant;
    if k :| 0 <= k < |log.supplies| && GivenConstant(node[n], log.supplies[k].given) {
      assert log'.supplies[k] == log.supplies[k];
    } else {
      var k :| 0 <= k < |log.copies| && log.copies[k].node in forward
        && node[n] == Node(forward[log.copies[k].node].op, log.copies[k].inputs, log.copies[k].outputs);
      assert log'.copies[k] == log.copies[k];
    }
  }

  method AllStaged(staged: Values, inputs: seq<ValueId>) returns (found: bool)
    ensures found <==> forall i :: 0 <= i < |inputs| ==> inputs[i] in staged
  {
    var i := 0;
    while i < |inputs|
      invariant 0 <= i <= |inputs| && forall k :: 0 <= k < i ==> inputs[k] in staged
    {
      if inputs[i] !in staged { return false; }
      i := i + 1;
    }
    return true;
  }

  /** Stages the new values; fails when an output has not been forgotten. */
  method StageCopies(before: Values, vs: seq<ValueId>, outs: seq<ValueId>) returns (fits: bool, staged: Values)
    requires |outs| == |vs| && Distinct(vs)
    ensures fits <==> forall i :: 0 <= i < |vs| ==> vs[i] !in before
    ensures fits ==> StagedAs(before, staged, vs, outs)
  {
    staged := before;
    var k := 0;
    while k < |vs|
      invariant 0 <= k <= |vs| && StagedAs(before, staged, vs[..k], outs[..k])
      invariant forall j :: 0 <= j < k ==> vs[j] !in before
    {
      assert vs[k] !in vs[..k];
      if vs[k] in staged { return false, staged; }
      StagedAsMore(before, staged, vs, outs, k);
      staged := staged[vs[k] := outs[k]];
      k := k + 1;
    }
    assert vs[..k] == vs && outs[..k] == outs;
    fits := true;
  }

  lemma RecomputedBelow(before: Values, after: Values, copyOf: Values, vs: seq<ValueId>, outs: seq<ValueId>, bound: nat,
                        high: nat)
    requires StagedAs(before, after, vs, outs) && (forall v :: v in before ==> v < bound)
    requires forall v :: v in vs ==> v < bound
    requires (forall c :: c in copyOf ==> c < high) && (forall o :: o in outs ==> o < high && o !in copyOf)
    requires Distinct(outs)
    ensures forall v :: v in after ==> v < bound
    ensures forall c :: c in MoreCopies(copyOf, outs, vs) ==> c < high
    ensures Extends(copyOf, MoreCopies(copyOf, outs, vs))
  {
    hide MoreCopies;
    MoreCopiesAt(copyOf, outs, vs);
  }

  lemma WithinAt(node: map<NodeId, Node>, more: map<NodeId, Node>, n: NodeId)
    requires Within(node, more) && n in node
    ensures n in more && more[n] == node[n]
  {
  }

  lemma StandLater(copyOf: Values, retained: Values, retained': Values, originals: seq<ValueId>, instead: seq<ValueId>)
    requires Stand(copyOf, retained, originals, instead) && Extends(retained, retained')
    ensures Stand(copyOf, retained', originals, instead)
  {
    forall i | 0 <= i < |originals| ensures StandsFor(copyOf, retained', originals[i], instead[i]) {
      assert StandsFor(copyOf, retained, originals[i], instead[i]);
    }
  }

  lemma ExtendsGrown(node: map<NodeId, Node>, node': map<NodeId, Node>, a: Values, b: Values, c: Values)
    requires Within(node, node') && Extends(a, b) && Extends(b, c)
    ensures Grown(node, a, node', c)
  {
  }

  lemma CopyReads(before: map<NodeId, Node>, after: map<NodeId, Node>, n: Node, border: nat)
    requires NodesAdded(before, after, n) && Within(before, after) && forall i :: i in n.inputs ==> border <= i
    ensures ReadsFrom(before, border) ==> ReadsFrom(after, border)
  {
    if ReadsFrom(before, border) { ReadsFromMore(before, after, n, border); }
  }

  lemma CopyWithin(forward: map<NodeId, Node>, before: map<NodeId, Node>, after: map<NodeId, Node>)
    requires Within(before, after)
    ensures Within(forward, before) ==> Within(forward, after)
  {
  }

  /** New values, written by nobody, none of them a placeholder. */
  ghost predicate FreshGuards(retained: Values, copyOf: Values, producer: map<ValueId, NodeId>, outs: seq<ValueId>,
                              low: nat, high: nat) {
    && Distinct(outs)
    && (forall o :: o in outs ==>
          low <= o < high && o in retained && retained[o] == o && o !in copyOf && o !in producer)
    && (forall v :: v in retained && retained[v] != v ==> retained[v] !in outs)
  }

  lemma NoFreshGuards(retained: Values, copyOf: Values, producer: map<ValueId, NodeId>, low: nat)
    ensures FreshGuards(retained, copyOf, producer, [], low, low)
  {
  }

  /** Above all values in use. */
  ghost predicate Unused(retained: Values, copyOf: Values, producer: map<ValueId, NodeId>, v: ValueId) {
    && v !in producer && (forall c :: c in copyOf ==> c < v) && (forall w :: w in retained ==> w < v)
  }

  /** Every placeholder is older than `v`. */
  ghost predicate HeldBelow(retained: Values, v: ValueId) {
    forall w :: w in retained ==> retained[w] < v
  }

  lemma GuardIsGrown(s: State, forward: map<NodeId, Node>, node: map<NodeId, Node>, v: ValueId)
    requires v !in s.retained
    ensures Grown(node, s.retained, node, s.retained[v := v]) && Extends(s.retained, s.retained[v := v])
    ensures Reachable(s) ==> Reachable(s.(retained := s.retained[v := v]))
    ensures RecomputedRetained(forward, s) ==> RecomputedRetained(forward, s.(retained := s.retained[v := v]))
  {
  }

  lemma GuardKeepsHeld(retained: Values, copyOf: Values, producer: map<ValueId, NodeId>, border: nat, v: ValueId)
    requires Unused(retained, copyOf, producer, v) && border <= v
    ensures CopiesGuarded(retained, copyOf, border) ==> CopiesGuarded(retained[v := v], copyOf, border)
    ensures Held(retained, copyOf, producer, border, v) ==> Held(retained[v := v], copyOf, producer, border, v + 1)
  {
  }

  lemma NoneExtends(retained: Values)
    ensures Extends(retained, retained)
  {
  }

  lemma GuardExtends(before: Values, retained: Values, copyOf: Values, producer: map<ValueId, NodeId>, v: ValueId)
    requires Extends(before, retained) && Unused(retained, copyOf, producer, v)
    ensures Extends(before, retained[v := v])
  {
  }

  lemma GuardIsFresh(retained: Values, copyOf: Values, producer: map<ValueId, NodeId>, outs: seq<ValueId>, low: nat,
                     v: ValueId)
    requires FreshGuards(retained, copyOf, producer, outs, low, v) && Unused(retained, copyOf, producer, v) && low <= v
    requires HeldBelow(retained, v)
    ensures FreshGuards(retained[v := v], copyOf, producer, outs + [v], low, v + 1)
  {
    DistinctMore(outs, v);
  }

  lemma HeldIsBelow(retained: Values, copyOf: Values, producer: map<ValueId, NodeId>, border: nat, v: ValueId)
    requires forall w :: w in retained ==> w < v
    ensures Held(retained, copyOf, producer, border, v) || Guards(retained) ==> HeldBelow(retained, v)
  {
  }

  lemma DistinctMore(vs: seq<ValueId>, v: ValueId)
    requires Distinct(vs) && v !in vs
    ensures Distinct(vs + [v])
  {
  }

  lemma HoldIsGrown(node: map<NodeId, Node>, retained: Values, v: ValueId, r: ValueId)
    requires v !in retained && r !in retained
    ensures Grown(node, retained, node, retained[v := r][r := r]) && Extends(retained, retained[v := r][r := r])
  {
  }

  lemma HoldReaches(before: State, after: State, forward: map<NodeId, Node>, v: ValueId)
    requires Reachable(before) && RecomputedRetained(forward, before)
    requires after.staged == before.staged && after.last == before.last && Extends(before.retained, after.retained)
    requires after.stagedInForward == before.stagedInForward - {v} && v in after.retained
    ensures Reachable(after) && RecomputedRetained(forward, after)
  {
  }

  lemma HoldKeeps(s: State, copyOf: Values, producer: map<ValueId, NodeId>, border: nat, r: ValueId, v: ValueId)
    requires CopiesGuarded(s.retained, copyOf, border) && Held(s.retained, copyOf, producer, border, r)
    requires v < border <= r && v !in s.retained && r !in producer && (forall c :: c in copyOf ==> c < r)
    requires forall w :: w in s.retained ==> w < r
    ensures CopiesGuarded(s.retained[v := r][r := r], copyOf, border)
    ensures Held(s.retained[v := r][r := r], copyOf, producer, border, r + 1)
  {
  }

  ghost predicate FirstFits(staged: Values, n: Node) {
    && (forall i :: 0 <= i < |n.inputs| ==> n.inputs[i] in staged && staged[n.inputs[i]] == n.inputs[i])
    && (forall i :: 0 <= i < |n.outputs| ==> n.outputs[i] !in staged)
  }

  ghost predicate StagedThemselves(before: Values, after: Values, vs: seq<ValueId>) {
    && (forall v :: v in after <==> v in before || v in vs)
    && (forall v :: v in after ==> after[v] == if v in vs then v else before[v])
  }

  method AllThemselves(staged: Values, inputs: seq<ValueId>) returns (found: bool)
    ensures found <==> forall i :: 0 <= i < |inputs| ==> inputs[i] in staged && staged[inputs[i]] == inputs[i]
  {
    var i := 0;
    while i < |inputs|
      invariant 0 <= i <= |inputs|
      invariant forall k :: 0 <= k < i ==> inputs[k] in staged && staged[inputs[k]] == inputs[k]
    {
      var v := inputs[i];
      if v !in staged || staged[v] != v { return false; }
      i := i + 1;
    }
    return true;
  }

  method StageThemselves(before: Values, vs: seq<ValueId>) returns (fits: bool, staged: Values)
    requires Distinct(vs)
    ensures fits <==> forall i :: 0 <= i < |vs| ==> vs[i] !in before
    ensures fits ==> StagedThemselves(before, staged, vs)
  {
    staged := before;
    var k := 0;
    while k < |vs|
      invariant 0 <= k <= |vs| && StagedThemselves(before, staged, vs[..k])
      invariant forall j :: 0 <= j < k ==> vs[j] !in before
    {
      assert vs[k] !in vs[..k];
      if vs[k] in staged { return false, staged; }
      StagedMore(before, staged, vs, k);
      staged := staged[vs[k] := vs[k]];
      k := k + 1;
    }
    assert vs[..k] == vs;
    fits := true;
  }

  lemma StagedMore(before: Values, after: Values, vs: seq<ValueId>, k: nat)
    requires k < |vs| && StagedThemselves(before, after, vs[..k])
    ensures StagedThemselves(before, after[vs[k] := vs[k]], vs[..k + 1])
  {
    assert vs[..k + 1] == vs[..k] + [vs[k]];
  }

  lemma OutputsBelow(graph: Graph, n: NodeId)
    requires graph.Valid({}) && n in graph.node
    ensures forall v :: v in graph.node[n].outputs ==> v < graph.nextValue
    ensures forall v :: v in graph.node[n].inputs ==> v < graph.nextValue
    ensures Distinct(graph.node[n].outputs)
  {
    hide DefUse;
  }

  lemma FirstKeeps(s: State, staged: Values, forward: map<NodeId, Node>, copyOf: Values, n: NodeId)
    requires n in forward && StagedThemselves(s.staged, staged, forward[n].outputs)
    ensures AllCopies(copyOf, s.staged) ==> AllCopies(copyOf, staged)
    ensures StillForward(s, copyOf) ==> StillForward(s.(staged := staged, last := s.last[n := Original]), copyOf)
  {
  }

  ghost predicate RecomputeFits(staged: Values, n: Node) {
    && (forall i :: 0 <= i < |n.inputs| ==> n.inputs[i] in staged)
    && (forall i :: 0 <= i < |n.outputs| ==> n.outputs[i] !in staged)
  }

  ghost predicate StagedAs(before: Values, after: Values, vs: seq<ValueId>, outs: seq<ValueId>) {
    && |outs| == |vs|
    && (forall v :: v in after <==> v in before || v in vs)
    && (forall v :: v in after && v !in vs ==> after[v] == before[v])
    && (forall i :: 0 <= i < |vs| ==> after[vs[i]] == outs[i])
  }

  lemma StagedAsMore(before: Values, after: Values, vs: seq<ValueId>, outs: seq<ValueId>, k: nat)
    requires k < |vs| == |outs| && StagedAs(before, after, vs[..k], outs[..k]) && vs[k] !in vs[..k]
    ensures StagedAs(before, after[vs[k] := outs[k]], vs[..k + 1], outs[..k + 1])
  {
    assert vs[..k + 1] == vs[..k] + [vs[k]] && outs[..k + 1] == outs[..k] + [outs[k]];
  }

  /** What the backward part reads for a staged value: with two graphs what it is retained in. */
  ghost predicate HeldIn(retained: Values, two: bool, v: ValueId, r: ValueId) {
    if two then v in retained && retained[v] == r else r == v
  }

  ghost predicate AllHeldIn(retained: Values, two: bool, vs: seq<ValueId>, rs: seq<ValueId>) {
    |rs| == |vs| && forall i :: 0 <= i < |vs| ==> HeldIn(retained, two, vs[i], rs[i])
  }

  lemma InputsHeldIn(staged: Values, retained: Values, two: bool, inputs: seq<ValueId>)
    requires forall v :: v in inputs ==> v in staged
    requires if two then forall v :: v in inputs ==> staged[v] in retained else Guards(retained)
    ensures AllHeldIn(retained, two, Mapped(staged, inputs), Mapped(retained, Mapped(staged, inputs)))
  {
    assert forall i :: 0 <= i < |inputs| ==> inputs[i] in inputs;
  }

  lemma HeldInLater(retained: Values, retained': Values, two: bool, vs: seq<ValueId>, rs: seq<ValueId>)
    requires AllHeldIn(retained, two, vs, rs) && Extends(retained, retained')
    ensures AllHeldIn(retained', two, vs, rs)
  {
    forall i | 0 <= i < |vs|
      ensures HeldIn(retained', two, vs[i], rs[i])
    {
      assert HeldIn(retained, two, vs[i], rs[i]);
    }
  }

  /** What is read stands for the node's inputs. */
  lemma InputsStand(staged: Values, retained: Values, copyOf: Values, inputs: seq<ValueId>)
    requires AllCopies(copyOf, staged) && forall i :: 0 <= i < |inputs| ==> inputs[i] in staged
    ensures Stand(copyOf, retained, inputs, Mapped(retained, Mapped(staged, inputs)))
  {
    var instead := Mapped(retained, Mapped(staged, inputs));
    forall i | 0 <= i < |inputs| ensures StandsFor(copyOf, retained, inputs[i], instead[i]) {
      var t := staged[inputs[i]];
      assert Copies(copyOf, inputs[i], t);
    }
  }

  lemma RecomputeKeepsCopies(before: Values, after: Values, copyOf: Values, vs: seq<ValueId>, outs: seq<ValueId>)
    requires AllCopies(copyOf, before) && StagedAs(before, after, vs, outs) && Distinct(outs)
    requires forall o :: o in outs ==> o !in copyOf
    ensures AllCopies(MoreCopies(copyOf, outs, vs), after)
  {
    hide MoreCopies;
    MoreCopiesAt(copyOf, outs, vs);
    forall v | v in after ensures Copies(MoreCopies(copyOf, outs, vs), v, after[v]) {
      if v in vs {
        var i :| 0 <= i < |vs| && vs[i] == v;
      } else {
        assert Copies(copyOf, v, before[v]);
      }
    }
  }

  lemma RecomputeReaches(before: State, after: State, forward: map<NodeId, Node>, n: NodeId, outs: seq<ValueId>)
    requires Reachable(before) && RecomputedRetained(forward, before) && n in forward
    requires StagedAs(before.staged, after.staged, forward[n].outputs, outs)
    requires after.retained == before.retained && after.last == before.last[n := Recomputed]
    requires after.stagedInForward == before.stagedInForward
    requires forall o :: o in outs ==> o in before.retained
    requires forall v :: v in forward[n].inputs ==> v in before.staged && before.staged[v] in before.retained
    ensures Reachable(after) && RecomputedRetained(forward, after)
  {
    forall v | v in after.staged ensures after.staged[v] in after.retained || after.staged[v] in after.stagedInForward {
      if v in forward[n].outputs { var i :| 0 <= i < |outs| && forward[n].outputs[i] == v; }
    }
    forall m, v | m in after.last && after.last[m] == Recomputed && m in forward && Mentions(forward[m], v)
      && v in after.staged
      ensures after.staged[v] in after.retained
    {
      if v in forward[n].outputs { var i :| 0 <= i < |outs| && forward[n].outputs[i] == v; }
    }
  }

  lemma RecomputeKeepsHeld(retained: Values, copyOf: Values, producer: map<ValueId, NodeId>,
                           producer': map<ValueId, NodeId>, outs: seq<ValueId>, originals: seq<ValueId>, border: nat,
                           low: nat, bound: nat)
    requires CopiesGuarded(retained, copyOf, border) && FreshGuards(retained, copyOf, producer, outs, low, bound)
    requires border <= low
    requires |outs| == |originals| && forall v :: v in producer' ==> v in producer || v in outs
    ensures CopiesGuarded(retained, MoreCopies(copyOf, outs, originals), border)
    ensures Held(retained, copyOf, producer, border, bound) ==>
      Held(retained, MoreCopies(copyOf, outs, originals), producer', border, bound)
    ensures forall c :: c in MoreCopies(copyOf, outs, originals) ==> c in copyOf || c in outs
  {
    hide MoreCopies;
    MoreCopiesAt(copyOf, outs, originals);
  }

  // ---- backward computation ----

  /** In every run `v` and `r` hold the same. */
  ghost predicate Equal(node: map<NodeId, Node>, forward: map<NodeId, Node>, retained: Values, v: ValueId, r: ValueId) {
    forall kernels: Kernels, env: Env :: Consistent(kernels, node, forward, retained, env) ==> env(r) == env(v)
  }

  lemma ConstantHolds(kernels: Kernels, env: Env, n: Node, v: ValueId)
    requires Holds(kernels, n, env) && n.op.Constant? && n.outputs == [v]
    ensures env(v) == n.op.c
  {
    assert Vals(env, [v])[0] == env(v);
  }

  lemma ConstantsEqual(node: map<NodeId, Node>, forward: map<NodeId, Node>, retained: Values, c: Node, v: ValueId,
                       r: ValueId)
    requires c.op.Constant? && c.outputs == [v] && (Has(forward, c) || Has(node, c)) && Has(node, Node(c.op, [], [r]))
    ensures Equal(node, forward, retained, v, r)
  {
    hide Has, Holds, Consistent;
    forall kernels: Kernels, env: Env | Consistent(kernels, node, forward, retained, env) ensures env(r) == env(v) {
      ConsistentSolves(kernels, node, forward, retained, env);
      HasMeans(kernels, node, env, Node(c.op, [], [r]));
      if Has(forward, c) { HasMeans(kernels, forward, env, c); } else { HasMeans(kernels, node, env, c); }
      ConstantHolds(kernels, env, c, v);
      ConstantHolds(kernels, env, Node(c.op, [], [r]), r);
    }
  }

  /** Only constants have been added, each of them given. */
  ghost predicate OnlyConstants(before: map<NodeId, Node>, after: map<NodeId, Node>, given: seq<ValueId>) {
    forall n :: n in after && n !in before ==> GivenConstant(after[n], given)
  }

  ghost predicate GivenConstant(n: Node, given: seq<ValueId>) {
    n.op.Constant? && n.inputs == [] && |n.outputs| == 1 && n.outputs[0] in given
  }

  lemma NoConstants(node: map<NodeId, Node>, given: seq<ValueId>)
    ensures OnlyConstants(node, node, given)
  {
  }

  lemma OneConstant(before: map<NodeId, Node>, after: map<NodeId, Node>, op: Op, r: ValueId)
    requires NodesAdded(before, after, Node(op, [], [r])) && op.Constant?
    ensures OnlyConstants(before, after, [r])
  {
  }

  lemma ConstantsMore(first: map<NodeId, Node>, before: map<NodeId, Node>, retained: Values, after: map<NodeId, Node>,
                      retained': Values, given: seq<ValueId>, r: ValueId)
    requires OnlyConstants(first, before, given) && OnlyConstants(before, after, [r])
    requires Grown(before, retained, after, retained')
    ensures OnlyConstants(first, after, given + [r])
  {
    forall n | n in after && n !in first ensures GivenConstant(after[n], given + [r]) {
      if n in before { assert GivenConstant(before[n], given); } else { assert GivenConstant(after[n], [r]); }
    }
  }

  lemma RetainedEqual(node: map<NodeId, Node>, forward: map<NodeId, Node>, retained: Values, v: ValueId)
    requires v in retained
    ensures Equal(node, forward, retained, v, retained[v])
  {
    hide Solves;
  }

  lemma NewProducer(retained: Values, copyOf: Values, producer: map<ValueId, NodeId>, producer': map<ValueId, NodeId>,
                    border: nat, r: ValueId)
    requires Held(retained, copyOf, producer, border, r) && producer'.Keys == producer.Keys + {r}
    ensures Held(retained, copyOf, producer', border, r + 1)
  {
  }

  lemma PlaceholderKeeps(retained: Values, copyOf: Values, producer: map<ValueId, NodeId>, border: nat, r: ValueId,
                         v: ValueId)
    requires CopiesGuarded(retained, copyOf, border) && Held(retained, copyOf, producer, border, r)
    requires v < border <= r && v !in retained && r !in producer && (forall c :: c in copyOf ==> c < r)
    ensures CopiesGuarded(retained[v := r], copyOf, border) && Held(retained[v := r], copyOf, producer, border, r + 1)
  {
  }

  lemma PlaceholderIsGrown(node: map<NodeId, Node>, retained: Values, v: ValueId, r: ValueId)
    requires v !in retained
    ensures Grown(node, retained, node, retained[v := r])
  {
  }

  lemma PlaceholderReaches(before: State, after: State, forward: map<NodeId, Node>, v: ValueId)
    requires Reachable(before) && RecomputedRetained(forward, before) && v !in before.retained
    requires v in after.retained && after == before.(retained := before.retained[v := after.retained[v]])
    ensures Reachable(after) && RecomputedRetained(forward, after)
  {
  }

  ghost predicate BackwardFits(inBackward: bool, s: State, n: Node, id: NodeId) {
    inBackward && id in s.last && forall i :: 0 <= i < |Operands(n)| ==> Operands(n)[i] in s.staged
  }

  /** The values given for the first `k` positions asked for equal the original operands. */
  ghost predicate Supplies(node: map<NodeId, Node>, forward: map<NodeId, Node>, retained: Values,
                           operands: seq<ValueId>, asked: seq<nat>, given: seq<ValueId>, k: nat) {
    && k <= |asked| && |given| == k
    && forall i :: 0 <= i < k ==> asked[i] < |operands| && Equal(node, forward, retained, operands[asked[i]], given[i])
  }

  lemma SuppliesNone(node: map<NodeId, Node>, forward: map<NodeId, Node>, retained: Values, operands: seq<ValueId>,
                     asked: seq<nat>)
    ensures Supplies(node, forward, retained, operands, asked, [], 0)
  {
  }

  lemma SuppliesMore(node: map<NodeId, Node>, node': map<NodeId, Node>, forward: map<NodeId, Node>, retained: Values,
                     retained': Values, operands: seq<ValueId>, asked: seq<nat>, given: seq<ValueId>, k: nat,
                     r: ValueId)
    requires Supplies(node, forward, retained, operands, asked, given, k) && Grown(node, retained, node', retained')
    requires k < |asked| && asked[k] < |operands| && Equal(node', forward, retained', operands[asked[k]], r)
    ensures Supplies(node', forward, retained', operands, asked, given + [r], k + 1)
  {
    hide Equal, Grown;
    forall i | 0 <= i < k ensures Equal(node', forward, retained', operands[asked[i]], given[i]) {
      EqualGrown(node, node', forward, retained, retained', operands[asked[i]], given[i]);
    }
  }

  lemma EqualGrown(node: map<NodeId, Node>, node': map<NodeId, Node>, forward: map<NodeId, Node>, retained: Values,
                   retained': Values, v: ValueId, r: ValueId)
    requires Equal(node, forward, retained, v, r) && Grown(node, retained, node', retained')
    ensures Equal(node', forward, retained', v, r)
  {
    hide Consistent, Grown;
    forall kernels: Kernels, env: Env | Consistent(kernels, node', forward, retained', env) ensures env(r) == env(v) {
      ConsistentEarlier(kernels, node, retained, node', retained', forward, env);
    }
  }

  // ---- the result ----

  /** In every joint run of the two graphs each recomputed value equals its original, and so does
      each value that is still staged. */
  ghost predicate AllFaithful(forward: map<NodeId, Node>, backward: map<NodeId, Node>, feeds: Feeds, copyOf: Values,
                              staged: Values) {
    forall kernels: Kernels, env: Env ::
      Solves(kernels, forward, env) && Solves(kernels, backward, env) && Fed(env, feeds) ==>
      (forall c :: c in copyOf ==> env(c) == env(copyOf[c])) && (forall v :: v in staged ==> env(staged[v]) == env(v))
  }

  lemma FaithfulAll(kernels: Kernels, env: Env, node: map<NodeId, Node>, forward: map<NodeId, Node>, retained: Values,
                    copyOf: Values, staged: Values)
    requires Faithful(node, forward, retained, copyOf) && AllCopies(copyOf, staged)
    requires Consistent(kernels, node, forward, retained, env)
    ensures forall c :: c in copyOf ==> env(c) == env(copyOf[c])
    ensures forall v :: v in staged ==> env(staged[v]) == env(v)
  {
    hide Consistent;
    FaithfulHere(kernels, node, forward, retained, copyOf, env);
    forall v | v in staged ensures env(staged[v]) == env(v) {
      assert Copies(copyOf, v, staged[v]);
    }
  }

  /** In the joint runs of the finished graphs everything retained is what it is retained for. */
  ghost predicate Follows(forward: map<NodeId, Node>, node: map<NodeId, Node>, retained: Values,
                          forward': map<NodeId, Node>, node': map<NodeId, Node>, feeds: Feeds) {
    forall kernels: Kernels, env: Env ::
      Solves(kernels, forward', env) && Solves(kernels, node', env) && Fed(env, feeds) ==>
      Consistent(kernels, node, forward, retained, env)
  }

  lemma GuardsFollow(forward: map<NodeId, Node>, node: map<NodeId, Node>, retained: Values)
    requires Within(forward, node) && Guards(retained)
    ensures Follows(forward, node, retained, node, node, map[])
  {
    hide Solves, Within;
    forall kernels: Kernels, env: Env | Solves(kernels, node, env)
      ensures Consistent(kernels, node, forward, retained, env)
    {
      SolvesWithin(kernels, forward, node, env);
    }
  }

  lemma FaithfulNow(forward: map<NodeId, Node>, node: map<NodeId, Node>, retained: Values, forward': map<NodeId, Node>,
                    node': map<NodeId, Node>, feeds: Feeds, copyOf: Values, staged: Values)
    requires Faithful(node, forward, retained, copyOf) && AllCopies(copyOf, staged)
    requires Follows(forward, node, retained, forward', node', feeds)
    ensures AllFaithful(forward', node', feeds, copyOf, staged)
  {
    hide Faithful, AllCopies, Solves, Consistent, Fed;
    forall kernels: Kernels, env: Env | Solves(kernels, forward', env) && Solves(kernels, node', env) && Fed(env, feeds)
      ensures forall c :: c in copyOf ==> env(c) == env(copyOf[c])
      ensures forall v :: v in staged ==> env(staged[v]) == env(v)
    {
      FaithfulAll(kernels, env, node, forward, retained, copyOf, staged);
    }
  }

  ghost predicate AllThere(node: map<NodeId, Node>, forward: map<NodeId, Node>, copyOf: Values, copies: seq<Copy>) {
    forall k :: 0 <= k < |copies| ==> IsThere(node, forward, copyOf, copies[k])
  }

  /** In every joint run each gradient is given the values, at the positions asked for, of the
      operands that its node had at first. */
  ghost predicate AllSupplied(forward': map<NodeId, Node>, node': map<NodeId, Node>, feeds: Feeds,
                              forward: map<NodeId, Node>, supplies: seq<Supply>) {
    forall kernels: Kernels, env: Env, k ::
      0 <= k < |supplies| && Solves(kernels, forward', env) && Solves(kernels, node', env) && Fed(env, feeds) ==>
        Given(env, forward, supplies[k])
  }

  ghost predicate Given(env: Env, forward: map<NodeId, Node>, u: Supply) {
    && u.node in forward && |u.given| == |u.asked|
    && forall i :: 0 <= i < |u.asked| ==>
         u.asked[i] < |Operands(forward[u.node])| && env(u.given[i]) == env(Operands(forward[u.node])[u.asked[i]])
  }

  /** Nothing new but copies, given constants, and what fills the placeholders. */
  ghost predicate OnlyLogged(before: map<NodeId, Node>, after: map<NodeId, Node>, forward: map<NodeId, Node>,
                             retained: Values, log: Log, carried: Carried) {
    forall n :: n in after && n !in before ==> IsMade(after[n], forward, log) || Enters(after[n], carried, retained)
  }

  ghost predicate OnlyLeaving(before: map<NodeId, Node>, after: map<NodeId, Node>, feeds: Feeds, carried: Carried) {
    forall n :: n in after && n !in before ==> Leaves(after[n], feeds, carried)
  }

  ghost predicate OnlyCrossing(forward: map<NodeId, Node>, node: map<NodeId, Node>, forward': map<NodeId, Node>,
                               node': map<NodeId, Node>, feeds: Feeds, carried: Carried, retained: Values, two: bool) {
    && (two ==> OnlyLeaving(forward, forward', feeds, carried))
    && (forall n :: n in node' && n !in node ==> Enters(node'[n], carried, retained))
  }

  lemma CarriageCrosses(forward: map<NodeId, Node>, node: map<NodeId, Node>, forward': map<NodeId, Node>,
                        node': map<NodeId, Node>, feeds: Feeds, carried: Carried, retained: Values, low: nat, high: nat)
    requires Carriage(forward, node, forward', node', feeds, carried, Parts(retained), low, high)
    ensures OnlyCrossing(forward, node, forward', node', feeds, carried, retained, true)
  {
    forall n | n in node' && n !in node ensures Enters(node'[n], carried, retained) {
      assert Enters(node'[n], carried, Parts(retained));
    }
  }

  lemma NothingCrosses(forward: map<NodeId, Node>, node: map<NodeId, Node>, retained: Values)
    ensures OnlyCrossing(forward, node, forward, node, map[], map[], retained, false)
  {
  }

  lemma NothingCarriedIn(carried: Carried, two: bool)
    requires !two ==> carried.Values == {}
    ensures !two ==> carried == map[]
  {
    assert forall i :: i in carried ==> carried[i] in carried.Values;
  }

  /** From the log to the finished graphs. */
  lemma LoggedNow(before: map<NodeId, Node>, node: map<NodeId, Node>, node': map<NodeId, Node>,
                  forward: map<NodeId, Node>, retained: Values, copyOf: Values, log: Log, first: map<NodeId, Node>,
                  forward': map<NodeId, Node>, feeds: Feeds, carried: Carried, two: bool)
    requires Logged(before, node, forward, retained, copyOf, Log([], []), log) && Within(node, node')
    requires Follows(forward, node, retained, forward', node', feeds) && (two ==> first == forward)
    requires OnlyCrossing(first, node, forward', node', feeds, carried, retained, two)
    ensures AllThere(node', forward, copyOf, log.copies) && AllSupplied(forward', node', feeds, forward, log.supplies)
    ensures OnlyLogged(before, node', forward, retained, log, carried)
    ensures two ==> OnlyLeaving(forward, forward', feeds, carried)
  {
    hide IsThere, IsSupplied, IsMade, Given, Solves, Fed, Consistent, OnlyLeaving, Enters;
    forall k | 0 <= k < |log.copies| ensures IsThere(node', forward, copyOf, log.copies[k]) {
      WithinThere(node, node', forward, copyOf, log.copies[k]);
    }
    forall kernels: Kernels, env: Env, k | Solves(kernels, forward', env) && Solves(kernels, node', env)
      && Fed(env, feeds)
      && 0 <= k < |log.supplies| ensures Given(env, forward, log.supplies[k])
    {
      SuppliedMeans(kernels, env, node, forward, retained, log.supplies[k]);
    }
    forall n | n in node' && n !in before
      ensures IsMade(node'[n], forward, log) || Enters(node'[n], carried, retained)
    {
      if n in node { assert node'[n] == node[n]; }
    }
  }

  lemma WithinThere(node: map<NodeId, Node>, node': map<NodeId, Node>, forward: map<NodeId, Node>, copyOf: Values,
                    c: Copy)
    requires IsThere(node, forward, copyOf, c) && Within(node, node')
    ensures IsThere(node', forward, copyOf, c)
  {
  }

  lemma SuppliedMeans(kernels: Kernels, env: Env, node: map<NodeId, Node>, forward: map<NodeId, Node>, retained: Values,
                      u: Supply)
    requires IsSupplied(node, forward, retained, u) && Consistent(kernels, node, forward, retained, env)
    ensures Given(env, forward, u)
  {
    hide Consistent;
    forall i | 0 <= i < |u.asked| ensures env(u.given[i]) == env(Operands(forward[u.node])[u.asked[i]]) {
      assert Equal(node, forward, retained, Operands(forward[u.node])[u.asked[i]], u.given[i]);
    }
  }

  lemma NothingLeft(forward: map<NodeId, Node>, backward: map<NodeId, Node>, feeds: Feeds, parts: Values)
    requires AllCross(forward, backward, feeds, parts, parts.Keys - {})
    ensures AllCross(forward, backward, feeds, parts, parts.Keys)
  {
    assert parts.Keys - {} == parts.Keys;
  }

  lemma PartsFollow(forward: map<NodeId, Node>, forward': map<NodeId, Node>, node: map<NodeId, Node>,
                    node': map<NodeId, Node>, feeds: Feeds, retained: Values)
    requires Within(forward, forward') && Within(node, node')
    requires AllCross(forward', node', feeds, Parts(retained), Parts(retained).Keys)
    ensures Follows(forward, node, retained, forward', node', feeds)
  {
    hide Solves, Within, Fed, Crosses;
    forall kernels: Kernels, env: Env | Solves(kernels, forward', env) && Solves(kernels, node', env) && Fed(env, feeds)
      ensures Consistent(kernels, node, forward, retained, env)
    {
      SolvesWithin(kernels, forward, forward', env);
      SolvesWithin(kernels, node, node', env);
      forall v | v in retained ensures env(retained[v]) == env(v) {
        if retained[v] != v {
          assert v in Parts(retained).Keys;
          CrossesMeans(kernels, forward', node', feeds, env, v, retained[v]);
        }
      }
    }
  }
}
