/** compiler/subgraph_canonicalizer.cc: values captured by the body of a Loop or the branches of
    an If become inputs.  Within one graph a value stands for its name. */
module Canonicalizer {
  import opened Ir
  import opened GraphIr
  import opened Builder
  import opened Loops
  import opened CanonicalizerMeaning

  // ---- the values a subgraph requires ----

  ghost predicate ReadIn(node: map<NodeId, Node>, v: ValueId) {
    exists n :: n in node && v in node[n].inputs
  }

  /** A value that the subgraph uses without having it. */
  ghost predicate Required(node: map<NodeId, Node>, inputs: seq<ValueId>, outputs: seq<ValueId>, nulls: set<ValueId>,
                           v: ValueId) {
    v !in nulls && (v in outputs || ReadIn(node, v)) && v !in inputs && !WrittenIn(node, v)
  }

  /** GetRequiredValues. */
  method GetRequiredValues(graph: Graph, inputs: seq<ValueId>, outputs: seq<ValueId>, nulls: set<ValueId>)
    returns (required: set<ValueId>)
    requires Listed(graph)
    ensures forall v :: v in required <==> Required(graph.node, inputs, outputs, nulls, v)
  {
    var live := GetLiveNodes(graph);
    var used: set<ValueId> := SetOf(outputs) - nulls;
    var written: set<ValueId> := {};
    var i := 0;
    while i < |live|
      invariant 0 <= i <= |live|
      invariant forall v ::
        v in used <==>
          && v !in nulls
          && (v in outputs || exists j :: 0 <= j < i && live[j] in graph.node && v in graph.node[live[j]].inputs)
      invariant forall v ::
        v in written <==> exists j :: 0 <= j < i && live[j] in graph.node && v in graph.node[live[j]].outputs
    {
      assert live[i] in SetOf(live);
      used := used + (SetOf(graph.node[live[i]].inputs) - nulls);
      written := written + SetOf(graph.node[live[i]].outputs);
      i := i + 1;
    }
    required := used - SetOf(inputs) - written;
    forall v ensures v in required <==> Required(graph.node, inputs, outputs, nulls, v) {
      AllNodes(graph, live, v);
    }
  }

  lemma AllNodes(graph: Graph, live: seq<NodeId>, v: ValueId)
    requires SetOf(live) == graph.node.Keys
    ensures ReadIn(graph.node, v) <==>
      exists j :: 0 <= j < |live| && live[j] in graph.node && v in graph.node[live[j]].inputs
    ensures WrittenIn(graph.node, v) <==>
      exists j :: 0 <= j < |live| && live[j] in graph.node && v in graph.node[live[j]].outputs
  {
    if n :| n in graph.node && v in graph.node[n].inputs {
      assert n in SetOf(live);
      var j :| 0 <= j < |live| && live[j] == n;
    }
    if n :| n in graph.node && v in graph.node[n].outputs {
      assert n in SetOf(live);
      var j :| 0 <= j < |live| && live[j] == n;
    }
  }

  /** The elements of a set, in any order. */
  method ListOf(vs: set<ValueId>) returns (list: seq<ValueId>)
    ensures SetOf(list) == vs && Distinct(list)
  {
    list := [];
    var todo := vs;
    while todo != {}
      invariant todo <= vs && SetOf(list) == vs - todo && Distinct(list)
      decreases todo
    {
      var v :| v in todo;
      assert v !in SetOf(list);
      assert forall x :: x in list + [v] <==> x in list || x == v;
      assert SetOf(list + [v]) == SetOf(list) + {v};
      list := list + [v];
      todo := todo - {v};
    }
  }

  // ---- Loop ----

  /** What has been made for the first captured values. */
  ghost predicate Lifting(loop: Loop, now: Loop, c: Lift, inside: nat, bound: nat, high: nat) {
    && Lists(loop, now, c) && Copies(now.body, c) && Within(loop.body, now.body)
    && (forall n :: n in now.body ==> (n in loop.body && now.body[n] == loop.body[n]) || NewCopy(c, now.body[n]))
    && MadeInTurn(c.ins, c.outs, inside, bound)
    && MadeBefore(c.dummies, high)
    && Elsewhere(loop.inputs, c.dummies) && Elsewhere(loop.outputs, c.dummies) && Elsewhere(c.externals, c.dummies)
  }

  ghost predicate MadeInTurn(ins: seq<ValueId>, outs: seq<ValueId>, low: nat, high: nat) {
    && AllDifferent(ins, low) && AllDifferent(outs, low)
    && (forall v :: v in ins ==> v < high && v !in outs) && (forall v :: v in outs ==> v < high)
  }

  lemma InTurnDifferent(ins: seq<ValueId>, outs: seq<ValueId>, low: nat, high: nat)
    requires MadeInTurn(ins, outs, low, high)
    ensures AllDifferent(ins + outs, low)
  {
    var all := ins + outs;
    forall i, k | 0 <= i < k < |all| ensures all[i] != all[k] {
      if i < |ins| <= k { assert ins[i] in ins && outs[k - |ins|] in outs; }
    }
  }

  ghost predicate MadeBefore(vs: seq<ValueId>, high: nat) {
    AllDifferent(vs, 0) && forall v :: v in vs ==> v < high
  }

  lemma InTurnMore(ins: seq<ValueId>, outs: seq<ValueId>, low: nat, high: nat, i: ValueId, o: ValueId)
    requires MadeInTurn(ins, outs, low, high) && |ins| == |outs| && low <= high <= i < o
    ensures MadeInTurn(ins + [i], outs + [o], low, o + 1)
  {
    assert forall k :: 0 <= k < |ins| ==> ins[k] in ins;
    assert forall k :: 0 <= k < |outs| ==> outs[k] in outs;
  }

  /** One state more, `index` states from the left. */
  ghost predicate Inserted(now: Loop, more: Loop, index: nat, external: ValueId, i: ValueId, o: ValueId,
                           dummy: ValueId) {
    && index <= |now.outputs| && index + 1 <= |now.bodyOutputs| && more.nulls == now.nulls
    && more.inputs == now.inputs + [external] && more.outputs == now.outputs[..index] + [dummy] + now.outputs[index..]
    && more.bodyInputs == now.bodyInputs + [i]
    && more.bodyOutputs == now.bodyOutputs[..index + 1] + [o] + now.bodyOutputs[index + 1..]
  }

  lemma ListsMore(loop: Loop, now: Loop, c: Lift, more: Loop, required: ValueId, external: ValueId, i: ValueId,
                  o: ValueId, dummy: ValueId)
    requires Lists(loop, now, c) && Inserted(now, more, loop.States() + |c.required|, external, i, o, dummy)
    ensures Lists(loop, more, LiftMore(c, required, external, i, o, dummy))
  {
    var c' := LiftMore(c, required, external, i, o, dummy);
    var s := loop.States();
    assert now.outputs[..s + |c.dummies|] == loop.outputs[..s] + c.dummies;
    assert now.outputs[s + |c.dummies|..] == loop.outputs[s..];
    assert more.outputs == loop.outputs[..s] + (c.dummies + [dummy]) + loop.outputs[s..];
    assert now.bodyOutputs[..s + 1 + |c.outs|] == loop.bodyOutputs[..s + 1] + c.outs;
    assert now.bodyOutputs[s + 1 + |c.outs|..] == loop.bodyOutputs[s + 1..];
    assert more.bodyOutputs == loop.bodyOutputs[..s + 1] + (c.outs + [o]) + loop.bodyOutputs[s + 1..];
  }

  function LiftMore(c: Lift, required: ValueId, external: ValueId, i: ValueId, o: ValueId, dummy: ValueId): Lift {
    Lift(c.required + [required], c.externals + [external], c.ins + [i], c.outs + [o], c.dummies + [dummy])
  }

  lemma CopiesMore(loopBody: map<NodeId, Node>, before: map<NodeId, Node>, between: map<NodeId, Node>,
                   after: map<NodeId, Node>, c: Lift, required: ValueId, external: ValueId, i: ValueId, o: ValueId,
                   dummy: ValueId)
    requires Copies(before, c) && Within(loopBody, before)
    requires forall n :: n in before ==> (n in loopBody && before[n] == loopBody[n]) || NewCopy(c, before[n])
    requires Within(before, between) && Within(between, after)
    requires Has(between, Node(Identity, [i], [required]))
    requires NodesAdded(before, between, Node(Identity, [i], [required]))
    requires Has(after, Node(Identity, [i], [o])) && NodesAdded(between, after, Node(Identity, [i], [o]))
    ensures Copies(after, LiftMore(c, required, external, i, o, dummy)) && Within(loopBody, after)
    ensures forall n :: n in after ==>
      (n in loopBody && after[n] == loopBody[n]) || NewCopy(LiftMore(c, required, external, i, o, dummy), after[n])
  {
    hide Has;
    var c' := LiftMore(c, required, external, i, o, dummy);
    WithinTrans(before, between, after);
    WithinTrans(loopBody, before, after);
    forall r | 0 <= r < |c'.required|
      ensures Has(after, Node(Identity, [c'.ins[r]], [c'.required[r]]))
      ensures Has(after, Node(Identity, [c'.ins[r]], [c'.outs[r]]))
    {
      if r < |c.required| {
        HasWithin(before, after, Node(Identity, [c.ins[r]], [c.required[r]]));
        HasWithin(before, after, Node(Identity, [c.ins[r]], [c.outs[r]]));
      } else {
        HasWithin(between, after, Node(Identity, [i], [required]));
      }
    }
    forall n | n in after && !(n in loopBody && after[n] == loopBody[n]) ensures NewCopy(c', after[n]) {
      if n in before {
        assert NewCopy(c, before[n]) && after[n] == before[n];
        var r :| 0 <= r < |c.required| && (before[n] == Node(Identity, [c.ins[r]], [c.required[r]])
                                           || before[n] == Node(Identity, [c.ins[r]], [c.outs[r]]));
        assert c'.ins[r] == c.ins[r] && c'.required[r] == c.required[r] && c'.outs[r] == c.outs[r];
      } else {
        var r := |c.required|;
        assert c'.ins[r] == i && c'.required[r] == required && c'.outs[r] == o;
      }
    }
  }

  /** Two Identity nodes behind a new input of the body. */
  method CopyIn(body: Graph, required: ValueId) returns (i: ValueId, o: ValueId, ghost between: map<NodeId, Node>)
    requires body.Valid({}) && Listed(body) && required < body.nextValue && required !in body.producer
    modifies body
    ensures body.Valid({}) && Listed(body) && i == old(body.nextValue) && o == i + 1 && body.nextValue == o + 1
    ensures Within(old(body.node), between) && Within(between, body.node)
    ensures Has(between, Node(Identity, [i], [required]))
    ensures NodesAdded(old(body.node), between, Node(Identity, [i], [required]))
    ensures Has(body.node, Node(Identity, [i], [o])) && NodesAdded(between, body.node, Node(Identity, [i], [o]))
    ensures body.producer.Keys == old(body.producer.Keys) + {required, o}
  {
    hide DefUse, Written, Within, Has, NodesAdded, Listed;
    i := body.AddValue({});
    EmitTo(body, Identity, [i], required);
    between := body.node;
    o := Emit(body, Identity, [i]);
  }

  /** Values still to be lifted are written by nobody. */
  ghost predicate Unwritten(written: set<ValueId>, bound: nat, vs: seq<ValueId>, k: nat) {
    k <= |vs| && Distinct(vs) && forall i :: k <= i < |vs| ==> vs[i] !in written && vs[i] < bound
  }

  lemma UnwrittenNext(written: set<ValueId>, bound: nat, vs: seq<ValueId>, k: nat, o: ValueId, bound': nat)
    requires Unwritten(written, bound, vs, k) && k < |vs| && bound <= o && bound <= bound'
    ensures vs[k] !in written && vs[k] < bound && Unwritten(written + {vs[k], o}, bound', vs, k + 1)
  {
  }

  /** All that LiftOne keeps. */
  ghost predicate Halfway(graph: Graph, loop: LoopNode, loop0: Loop, c: Lift, inside: nat, required: seq<ValueId>,
                          k: nat)
    reads graph, loop, loop.body
  {
    && graph.Valid({}) && loop.body.Valid({}) && Listed(loop.body) && graph != loop.body
    && loop0.Fits() && k <= |required| && c.required == required[..k] && inside <= loop.body.nextValue
    && Lifting(loop0, loop.Value(), c, inside, loop.body.nextValue, graph.nextValue)
    && Unwritten(loop.body.producer.Keys, loop.body.nextValue, required, k)
    && (forall v :: v in loop0.inputs || v in loop0.outputs ==> v < graph.nextValue)
    && (forall v :: v in c.externals ==> v < graph.nextValue)
  }

  lemma NotAmong(vs: seq<ValueId>, dummies: seq<ValueId>, dummy: ValueId)
    requires Elsewhere(vs, dummies) && forall v :: v in vs ==> v < dummy
    ensures Elsewhere(vs, dummies + [dummy])
  {
    assert forall i :: 0 <= i < |vs| ==> vs[i] in vs;
  }

  lemma ExternalApart(externals: seq<ValueId>, dummies: seq<ValueId>, external: ValueId, dummy: ValueId, high: nat)
    requires Elsewhere(externals, dummies) && (forall v :: v in externals ==> v < high)
    requires forall v :: v in dummies ==> v < high
    requires external !in dummies && external < dummy && high <= dummy
    ensures Elsewhere(externals + [external], dummies + [dummy])
  {
    assert forall i :: 0 <= i < |externals| ==> externals[i] in externals;
  }

  /** One captured value becomes a state of the loop; `index` is the number of states before it. */
  method LiftOne(graph: Graph, loop: LoopNode, ghost loop0: Loop, ghost c: Lift, ghost inside: nat,
                 required: seq<ValueId>, k: nat, index: nat, names: ValueId -> nat, symtab: map<nat, ValueId>)
    returns (ghost c': Lift)
    requires Halfway(graph, loop, loop0, c, inside, required, k) && k < |required| && index == loop0.States() + k
    requires forall x :: x in symtab ==> symtab[x] < graph.nextValue && symtab[x] !in c.dummies
    modifies graph`nextValue, loop.body, loop`inputs, loop`outputs, loop`bodyInputs, loop`bodyOutputs
    ensures Halfway(graph, loop, loop0, c', inside, required, k + 1) && graph.nextValue >= old(graph.nextValue)
    ensures c'.externals[..k] == c.externals && c'.dummies[..k] == c.dummies && c'.dummies[k] >= old(graph.nextValue)
    ensures if names(required[k]) in symtab then c'.externals[k] == symtab[names(required[k])] else
      c'.externals[k] >= old(graph.nextValue)
  {
    hide *;
    var body := loop.body;
    ghost var now, high, bound := loop.Value(), graph.nextValue, body.nextValue;
    ValueIs(loop);
    HalfwayFacts(graph, loop, loop0, c, inside, required, k);
    UnwrittenNext(body.producer.Keys, bound, required, k, bound + 1, bound + 2);
    var i, o;
    ghost var between;
    i, o, between := CopyIn(body, required[k]);
    ghost var copied := loop.Value();
    ValueIs(loop);
    var external, dummy := InsertState(graph, loop, index, i, o, names(required[k]), symtab);
    InsertedAnyBody(now, copied, loop.Value(), index, external, i, o, dummy);
    c' := LiftMore(c, required[k], external, i, o, dummy);
    LiftingMore(loop0, now, c, loop.Value(), between, required[k], external, i, o, dummy, inside, bound, high);
    LiftedOne(c, required[k], external, i, o, dummy);
    assert required[..k + 1] == required[..k] + [required[k]];
    HalfwayNext(graph, loop, loop0, c, c', inside, required, k, high);
  }

  /** The state goes in under its name in the outer graph, or under a new one, and comes out unused. */
  method InsertState(graph: Graph, loop: LoopNode, index: nat, i: ValueId, o: ValueId, name: nat,
                     symtab: map<nat, ValueId>)
    returns (external: ValueId, dummy: ValueId)
    requires graph.Valid({}) && graph != loop.body && index <= |loop.outputs| && index + 1 <= |loop.bodyOutputs|
    requires forall x :: x in symtab ==> symtab[x] < graph.nextValue
    modifies graph`nextValue, loop`inputs, loop`outputs, loop`bodyInputs, loop`bodyOutputs
    ensures graph.Valid({}) && external < dummy && old(graph.nextValue) <= dummy < graph.nextValue == dummy + 1
    ensures if name in symtab then external == symtab[name] else external >= old(graph.nextValue)
    ensures Inserted(old(loop.Value()), loop.Value(), index, external, i, o, dummy)
    ensures loop.Value().body == old(loop.Value()).body
  {
    hide DefUse, Written, Below;
    loop.bodyInputs := loop.bodyInputs + [i];
    loop.bodyOutputs := loop.bodyOutputs[..index + 1] + [o] + loop.bodyOutputs[index + 1..];
    if name in symtab {
      external := symtab[name];
    } else {
      external := graph.AddValue({});
    }
    loop.inputs := loop.inputs + [external];
    dummy := graph.AddValue({});
    loop.outputs := loop.outputs[..index] + [dummy] + loop.outputs[index..];
  }

  lemma InsertedAnyBody(now: Loop, copied: Loop, more: Loop, index: nat, external: ValueId, i: ValueId, o: ValueId,
                        dummy: ValueId)
    requires Inserted(copied, more, index, external, i, o, dummy) && now == copied.(body := now.body)
    ensures Inserted(now, more, index, external, i, o, dummy)
  {
  }

  lemma HalfwayFacts(graph: Graph, loop: LoopNode, loop0: Loop, c: Lift, inside: nat, required: seq<ValueId>, k: nat)
    requires Halfway(graph, loop, loop0, c, inside, required, k)
    ensures graph.Valid({}) && loop.body.Valid({}) && Listed(loop.body) && graph != loop.body
    ensures inside <= loop.body.nextValue
    ensures Lifting(loop0, loop.Value(), c, inside, loop.body.nextValue, graph.nextValue)
    ensures Unwritten(loop.body.producer.Keys, loop.body.nextValue, required, k)
    ensures loop0.Fits() && k <= |required| && c.required == required[..k]
    ensures loop0.States() + k <= |loop.outputs| && loop0.States() + k + 1 <= |loop.bodyOutputs|
    ensures |c.externals| == |c.dummies| == |c.required| == k && forall v :: v in c.dummies ==> v < graph.nextValue
    ensures forall v :: v in loop0.inputs || v in loop0.outputs || v in c.externals ==> v < graph.nextValue
  {
    hide DefUse, Written, Below, Listed, Unwritten, Lifting;
    LiftingSizes(loop0, loop.Value(), c, inside, loop.body.nextValue, graph.nextValue);
  }

  lemma HalfwayNext(graph: Graph, loop: LoopNode, loop0: Loop, c: Lift, c': Lift, inside: nat, required: seq<ValueId>,
                    k: nat, high: nat)
    requires graph.Valid({}) && loop.body.Valid({}) && Listed(loop.body) && graph != loop.body
    requires inside <= loop.body.nextValue
    requires Lifting(loop0, loop.Value(), c', inside, loop.body.nextValue, graph.nextValue)
    requires Unwritten(loop.body.producer.Keys, loop.body.nextValue, required, k + 1)
    requires loop0.Fits() && k < |required| && c'.required == required[..k + 1] && high <= graph.nextValue
    requires forall v :: v in loop0.inputs || v in loop0.outputs || v in c.externals ==> v < high
    requires forall v :: v in c'.externals ==> v in c.externals || v < graph.nextValue
    ensures Halfway(graph, loop, loop0, c', inside, required, k + 1)
  {
    hide DefUse, Written, Below, Listed, Unwritten, Lifting;
  }

  lemma LiftedOne(c: Lift, required: ValueId, external: ValueId, i: ValueId, o: ValueId, dummy: ValueId)
    requires |c.externals| == |c.dummies|
    ensures var c' := LiftMore(c, required, external, i, o, dummy);
      && c'.required == c.required + [required] && c'.externals == c.externals + [external]
      && c'.dummies == c.dummies + [dummy]
      && c'.externals[..|c.externals|] == c.externals && c'.dummies[..|c.dummies|] == c.dummies
      && c'.externals[|c.externals|] == external && c'.dummies[|c.dummies|] == dummy
      && (forall v :: v in c'.externals ==> v in c.externals || v == external)
  {
  }

  lemma LiftingSizes(loop: Loop, now: Loop, c: Lift, inside: nat, bound: nat, high: nat)
    requires Lifting(loop, now, c, inside, bound, high)
    ensures loop.Fits() && loop.States() + |c.required| <= |now.outputs|
    ensures loop.States() + |c.required| + 1 <= |now.bodyOutputs|
    ensures |c.externals| == |c.dummies| == |c.ins| == |c.outs| == |c.required|
    ensures forall v :: v in c.dummies ==> v < high
  {
    hide Has, Copies;
    ListsSize(loop, now, c);
  }

  lemma LiftingMore(loop: Loop, now: Loop, c: Lift, more: Loop, between: map<NodeId, Node>, required: ValueId,
                    external: ValueId, i: ValueId, o: ValueId, dummy: ValueId, inside: nat, bound: nat, high: nat)
    requires Lifting(loop, now, c, inside, bound, high) && inside <= bound <= i < o && high <= dummy && external < dummy
    requires Inserted(now, more, loop.States() + |c.required|, external, i, o, dummy)
    requires Within(now.body, between) && Within(between, more.body)
    requires Has(between, Node(Identity, [i], [required]))
    requires NodesAdded(now.body, between, Node(Identity, [i], [required]))
    requires Has(more.body, Node(Identity, [i], [o])) && NodesAdded(between, more.body, Node(Identity, [i], [o]))
    requires forall v :: v in loop.inputs || v in loop.outputs || v in c.externals ==> v < high
    requires external !in c.dummies
    ensures Lifting(loop, more, LiftMore(c, required, external, i, o, dummy), inside, o + 1, dummy + 1)
  {
    hide Has, Within, NodesAdded, Copies, Lists, AllDifferent, Elsewhere, MadeInTurn;
    NotMade(c.dummies, high);
    hide MadeBefore;
    ListsMore(loop, now, c, more, required, external, i, o, dummy);
    CopiesMore(loop.body, now.body, between, more.body, c, required, external, i, o, dummy);
    LiftingSizes(loop, now, c, inside, bound, high);
    InTurnMore(c.ins, c.outs, inside, bound, i, o);
    BeforeMore(c.dummies, high, dummy);
    NotAmong(loop.inputs, c.dummies, dummy);
    NotAmong(loop.outputs, c.dummies, dummy);
    ExternalApart(c.externals, c.dummies, external, dummy, high);
  }

  lemma NotMade(vs: seq<ValueId>, high: nat)
    requires MadeBefore(vs, high)
    ensures forall v :: v in vs ==> v < high
  {
  }

  lemma BeforeMore(vs: seq<ValueId>, high: nat, v: ValueId)
    requires MadeBefore(vs, high) && high <= v
    ensures MadeBefore(vs + [v], v + 1)
  {
    assert forall k :: 0 <= k < |vs| ==> vs[k] in vs;
  }

  lemma ListsSize(loop: Loop, now: Loop, c: Lift)
    requires Lists(loop, now, c)
    ensures loop.States() + |c.required| <= |now.outputs| && loop.States() + |c.required| + 1 <= |now.bodyOutputs|
    ensures |c.externals| == |c.dummies| == |c.ins| == |c.outs| == |c.required|
  {
  }

  /** The names of the enclosing graph, for captured values and externals made so far. */
  ghost predicate Resolved(c: Lift, names: ValueId -> nat, symtab: map<nat, ValueId>, first: nat) {
    Sizes(c) && forall r :: 0 <= r < |c.required| ==> ResolvedOne(c.required[r], c.externals[r], names, symtab, first)
  }

  ghost predicate ResolvedOne(required: ValueId, external: ValueId, names: ValueId -> nat, symtab: map<nat, ValueId>,
                              first: nat) {
    if names(required) in symtab then external == symtab[names(required)] else external >= first
  }

  lemma ResolvedMore(c: Lift, c': Lift, names: ValueId -> nat, symtab: map<nat, ValueId>, first: nat)
    requires Resolved(c, names, symtab, first) && Sizes(c') && |c'.required| == |c.required| + 1
    requires c'.required[..|c.required|] == c.required && c'.externals[..|c.required|] == c.externals
    requires ResolvedOne(c'.required[|c.required|], c'.externals[|c.required|], names, symtab, first)
    ensures Resolved(c', names, symtab, first)
  {
    forall r | 0 <= r < |c'.required| ensures ResolvedOne(c'.required[r], c'.externals[r], names, symtab, first) {
      if r < |c.required| {
        assert c'.required[..|c.required|][r] == c'.required[r] && c'.externals[..|c.required|][r] == c'.externals[r];
      }
    }
  }

  /** A loop whose body may capture values. */
  ghost predicate Liftable(graph: Graph, loop: LoopNode, symtab: map<nat, ValueId>)
    reads graph, loop, loop.body
  {
    && graph.Valid({}) && graph != loop.body && loop.Ok(graph.nextValue) && loop.Value().Fits() && Listed(loop.body)
    && (forall v :: v in loop.body.producer ==> loop.body.producer[v] in loop.body.node)
    && (forall x :: x in symtab ==> symtab[x] < graph.nextValue)
  }

  lemma NothingLifted(graph: Graph, loop: LoopNode, symtab: map<nat, ValueId>, required: seq<ValueId>,
                      nulls: set<ValueId>)
    requires Liftable(graph, loop, symtab) && Distinct(required)
    requires forall v :: v in required ==> Required(loop.body.node, loop.bodyInputs, loop.bodyOutputs, nulls, v)
    ensures Halfway(graph, loop, loop.Value(), Lift([], [], [], [], []), loop.body.nextValue, required, 0)
  {
    hide DefUse;
    var l := loop.Value();
    assert l.inputs + [] == l.inputs && l.bodyInputs + [] == l.bodyInputs;
    assert l.outputs[..l.States()] + [] + l.outputs[l.States()..] == l.outputs;
    assert l.bodyOutputs[..l.States() + 1] + [] + l.bodyOutputs[l.States() + 1..] == l.bodyOutputs;
    forall i | 0 <= i < |required| ensures required[i] !in loop.body.producer && required[i] < loop.body.nextValue {
      RequiredIsFree(loop.body, loop.bodyInputs, loop.bodyOutputs, nulls, required[i]);
    }
  }

  lemma RequiredIsFree(body: Graph, inputs: seq<ValueId>, outputs: seq<ValueId>, nulls: set<ValueId>, v: ValueId)
    requires body.Valid({}) && AllIn(outputs, body.nextValue)
    requires forall w :: w in body.producer ==> body.producer[w] in body.node
    requires Required(body.node, inputs, outputs, nulls, v)
    ensures v !in body.producer && v < body.nextValue
  {
    hide DefUse;
  }

  /** After lifting the body requires nothing any more. */
  lemma NothingRequired(loop: Loop, lifted: Loop, c: Lift, nulls: set<ValueId>, v: ValueId)
    requires Lists(loop, lifted, c) && Copies(lifted.body, c)
    requires forall n :: n in lifted.body ==>
      (n in loop.body && lifted.body[n] == loop.body[n]) || NewCopy(c, lifted.body[n])
    requires Within(loop.body, lifted.body)
    requires forall w :: w in c.required <==> Required(loop.body, loop.bodyInputs, loop.bodyOutputs, nulls, w)
    ensures !Required(lifted.body, lifted.bodyInputs, lifted.bodyOutputs, nulls, v)
  {
    hide Has;
    if v in c.required || v in c.outs {
      CopiesWrite(lifted.body, c, v);
    } else if v !in lifted.bodyInputs {
      OutputsOf(loop, lifted, c, v);
      forall n, w | n in lifted.body && w in lifted.body[n].inputs
        && !(n in loop.body && lifted.body[n] == loop.body[n])
        ensures w in c.ins
      {
        var r :| 0 <= r < |c.required| && lifted.body[n].inputs == [c.ins[r]];
      }
      if WrittenIn(loop.body, v) {
        var n :| n in loop.body && v in loop.body[n].outputs;
        assert v in lifted.body[n].outputs;
      }
    }
  }

  lemma CopiesWrite(body: map<NodeId, Node>, c: Lift, v: ValueId)
    requires Copies(body, c) && (v in c.required || v in c.outs)
    ensures WrittenIn(body, v)
  {
    if v in c.required {
      var r :| 0 <= r < |c.required| && c.required[r] == v;
      var n :| n in body && body[n] == Node(Identity, [c.ins[r]], [c.required[r]]);
      assert v in body[n].outputs;
    } else {
      var r :| 0 <= r < |c.outs| && c.outs[r] == v;
      var n :| n in body && body[n] == Node(Identity, [c.ins[r]], [c.outs[r]]);
      assert v in body[n].outputs;
    }
  }

  lemma OutputsOf(loop: Loop, lifted: Loop, c: Lift, v: ValueId)
    requires Lists(loop, lifted, c) && v !in c.outs
    ensures v in lifted.bodyOutputs ==> v in loop.bodyOutputs
    ensures v !in lifted.bodyInputs ==> v !in loop.bodyInputs && v !in c.ins
  {
    var s := loop.States() + 1;
    assert loop.bodyOutputs == loop.bodyOutputs[..s] + loop.bodyOutputs[s..];
  }

  /** What was in the body before is old. */
  ghost predicate OldBody(loop: Loop, required: seq<ValueId>, inside: nat) {
    && AllIn(loop.bodyInputs, inside) && AllIn(loop.bodyOutputs, inside) && AllIn(required, inside)
    && (forall n :: n in loop.body ==> BelowNode(loop.body[n], inside))
  }

  lemma BodyIsOld(graph: Graph, loop: LoopNode, symtab: map<nat, ValueId>, required: seq<ValueId>, nulls: set<ValueId>)
    requires Liftable(graph, loop, symtab)
    requires forall v :: v in required ==> Required(loop.body.node, loop.bodyInputs, loop.bodyOutputs, nulls, v)
    ensures OldBody(loop.Value(), required, loop.body.nextValue)
  {
    hide DefUse;
    assert forall i :: 0 <= i < |loop.bodyInputs| ==> loop.bodyInputs[i] in loop.bodyInputs;
    assert forall i :: 0 <= i < |loop.bodyOutputs| ==> loop.bodyOutputs[i] in loop.bodyOutputs;
    forall i | 0 <= i < |required| ensures required[i] < loop.body.nextValue {
      RequiredIsFree(loop.body, loop.bodyInputs, loop.bodyOutputs, nulls, required[i]);
    }
  }

  lemma HalfwaySizes(graph: Graph, loop: LoopNode, loop0: Loop, c: Lift, inside: nat, required: seq<ValueId>, k: nat)
    requires Halfway(graph, loop, loop0, c, inside, required, k)
    ensures |c.externals| == |c.dummies| == |c.required| == |c.ins| == |c.outs| == k && c.required == required[..k]
  {
    hide DefUse, Written, Below, Copies;
  }

  lemma HalfwayParts(graph: Graph, loop: LoopNode, loop0: Loop, c: Lift, inside: nat, required: seq<ValueId>)
    requires Halfway(graph, loop, loop0, c, inside, required, |required|)
    ensures Lifting(loop0, loop.Value(), c, inside, loop.body.nextValue, graph.nextValue) && graph.Valid({})
  {
    hide DefUse, Written, Below, Copies, Lists;
  }

  lemma AllNew(loop: Loop, now: Loop, c: Lift, inside: nat, bound: nat, high: nat)
    requires Lifting(loop, now, c, inside, bound, high) && OldBody(loop, c.required, inside)
    ensures Lifted(loop, now, c) && NewValues(loop, now, c, inside)
  {
    hide Copies, Has;
    InTurnDifferent(c.ins, c.outs, inside, bound);
  }

  /** The Loop case of ResolveExternalDependencies, for a body without unresolved subgraphs. */
  method LiftLoop(graph: Graph, loop: LoopNode, nulls: set<ValueId>, names: ValueId -> nat, symtab: map<nat, ValueId>)
    returns (ghost c: Lift)
    requires Liftable(graph, loop, symtab)
    modifies graph`nextValue, loop.body, loop`inputs, loop`outputs, loop`bodyInputs, loop`bodyOutputs
    ensures graph.Valid({}) && Lifted(old(loop.Value()), loop.Value(), c)
    ensures NewValues(old(loop.Value()), loop.Value(), c, old(loop.body.nextValue))
    ensures Resolved(c, names, symtab, old(graph.nextValue))
    ensures forall v ::
      v in c.required <==> Required(old(loop.body.node), old(loop.bodyInputs), old(loop.bodyOutputs), nulls, v)
    ensures forall v :: !Required(loop.body.node, loop.bodyInputs, loop.bodyOutputs, nulls, v)
  {
    hide DefUse, Written, Below, Halfway, Lists, Copies, Required, Distinct, Listed, Has, Within;
    ghost var loop0, inside, first := loop.Value(), loop.body.nextValue, graph.nextValue;
    var values := GetRequiredValues(loop.body, loop.bodyInputs, loop.bodyOutputs, nulls);
    var required := ListOf(values);
    assert forall v :: v in required <==> v in SetOf(required);
    c := Lift([], [], [], [], []);
    NothingLifted(graph, loop, symtab, required, nulls);
    BodyIsOld(graph, loop, symtab, required, nulls);
    var states := |loop.inputs| - 2;
    var k := 0;
    while k < |required|
      modifies graph`nextValue, loop.body, loop`inputs, loop`outputs, loop`bodyInputs, loop`bodyOutputs
      invariant 0 <= k <= |required| && Halfway(graph, loop, loop0, c, inside, required, k) && first <= graph.nextValue
      invariant |c.externals| == |c.dummies| == |c.required| == k && c.required == required[..k]
      invariant forall d :: d in c.dummies ==> d >= first
      invariant Resolved(c, names, symtab, first)
    {
      ghost var before := c;
      assert required[..k + 1] == required[..k] + [required[k]];
      c := LiftOne(graph, loop, loop0, c, inside, required, k, states + k, names, symtab);
      HalfwaySizes(graph, loop, loop0, c, inside, required, k + 1);
      ResolvedMore(before, c, names, symtab, first);
      assert c.dummies == before.dummies + [c.dummies[k]];
      k := k + 1;
    }
    assert required[..k] == required;
    HalfwayParts(graph, loop, loop0, c, inside, required);
    AllNew(loop0, loop.Value(), c, inside, loop.body.nextValue, graph.nextValue);
    forall v ensures !Required(loop.body.node, loop.bodyInputs, loop.bodyOutputs, nulls, v) {
      NothingRequired(loop0, loop.Value(), c, nulls, v);
    }
  }

  // ---- If ----

  class IfNode {
    var inputs: seq<ValueId>
    const outputs: seq<ValueId>
    const thenBranch: Graph
    const elseBranch: Graph
    var thenInputs: seq<ValueId>
    var elseInputs: seq<ValueId>
    const thenOutputs: seq<ValueId>
    const elseOutputs: seq<ValueId>

    ghost function Value(): If
      reads this, thenBranch`node, elseBranch`node
    {
      If(inputs, outputs, Branch(thenBranch.node, thenInputs, thenOutputs),
         Branch(elseBranch.node, elseInputs, elseOutputs))
    }

    constructor (inputs: seq<ValueId>, outputs: seq<ValueId>, thenBranch: Graph, elseBranch: Graph,
                 thenInputs: seq<ValueId>, elseInputs: seq<ValueId>, thenOutputs: seq<ValueId>,
                 elseOutputs: seq<ValueId>)
      ensures Value() == If(inputs, outputs, Branch(thenBranch.node, thenInputs, thenOutputs),
                            Branch(elseBranch.node, elseInputs, elseOutputs))
      ensures this.thenBranch == thenBranch && this.elseBranch == elseBranch
    {
      this.inputs, this.outputs, this.thenBranch, this.elseBranch := inputs, outputs, thenBranch, elseBranch;
      this.thenInputs, this.elseInputs, this.thenOutputs, this.elseOutputs := thenInputs, elseInputs, thenOutputs,
        elseOutputs;
    }
  }

  /** What has been made in one branch for the first external values. */
  ghost predicate BranchLifting(branch: Branch, node: map<NodeId, Node>, inputs: seq<ValueId>, c: BranchLift, base: nat,
                                bound: nat) {
    && |c.ins| == |c.captured| && inputs == branch.inputs + c.ins && Within(branch.node, node)
    && (forall r :: 0 <= r < |c.ins| ==> CopiedTo(node, c.ins[r], c.captured[r]))
    && AllDifferent(c.ins, base) && (forall r :: 0 <= r < |c.ins| ==> c.ins[r] < bound)
    && (forall n :: n in node ==> (n in branch.node && node[n] == branch.node[n]) || CopyOf(c, node[n]))
  }

  ghost predicate CopyOf(c: BranchLift, n: Node)
    requires |c.ins| == |c.captured|
  {
    exists r, v :: 0 <= r < |c.ins| && v in c.captured[r] && n == Node(Identity, [c.ins[r]], [v])
  }

  lemma BranchMore(branch: Branch, before: map<NodeId, Node>, after: map<NodeId, Node>, inputs: seq<ValueId>,
                   c: BranchLift, base: nat, bound: nat, i: ValueId, captured: seq<ValueId>)
    requires BranchLifting(branch, before, inputs, c, base, bound) && base <= bound <= i && Within(before, after)
    requires |captured| <= 1
    requires captured == [] ==> after == before
    requires captured != [] ==>
      Has(after, Node(Identity, [i], [captured[0]])) && NodesAdded(before, after, Node(Identity, [i], [captured[0]]))
    ensures BranchLifting(branch, after, inputs + [i], BranchLift(c.ins + [i], c.captured + [captured]), base, i + 1)
  {
    hide Has, CopyOf, CopiedTo;
    var c' := BranchLift(c.ins + [i], c.captured + [captured]);
    WithinTrans(branch.node, before, after);
    forall r | 0 <= r < |c'.ins| ensures CopiedTo(after, c'.ins[r], c'.captured[r]) {
      if r < |c.ins| {
        CopiedLater(before, after, c.ins[r], c.captured[r]);
      } else {
        CopiedNow(after, i, captured);
      }
    }
    forall n | n in after && !(n in branch.node && after[n] == branch.node[n]) ensures CopyOf(c', after[n]) {
      if n in before {
        CopyOfMore(c, before[n], i, captured);
      } else {
        CopyOfLast(c, i, captured);
      }
    }
  }

  lemma CopiedLater(before: map<NodeId, Node>, after: map<NodeId, Node>, x: ValueId, vs: seq<ValueId>)
    requires CopiedTo(before, x, vs) && Within(before, after)
    ensures CopiedTo(after, x, vs)
  {
    hide Has;
    forall v | v in vs
      ensures Has(after, Node(Identity, [x], [v]))
    {
      HasWithin(before, after, Node(Identity, [x], [v]));
    }
  }

  lemma CopiedNow(after: map<NodeId, Node>, i: ValueId, captured: seq<ValueId>)
    requires |captured| <= 1 && (captured != [] ==> Has(after, Node(Identity, [i], [captured[0]])))
    ensures CopiedTo(after, i, captured)
  {
    hide Has;
  }

  lemma CopyOfMore(c: BranchLift, n: Node, i: ValueId, captured: seq<ValueId>)
    requires |c.ins| == |c.captured| && CopyOf(c, n)
    ensures CopyOf(BranchLift(c.ins + [i], c.captured + [captured]), n)
  {
    var c' := BranchLift(c.ins + [i], c.captured + [captured]);
    var r, v :| 0 <= r < |c.ins| && v in c.captured[r] && n == Node(Identity, [c.ins[r]], [v]);
    assert c'.ins[r] == c.ins[r] && c'.captured[r] == c.captured[r];
  }

  lemma CopyOfLast(c: BranchLift, i: ValueId, captured: seq<ValueId>)
    requires |c.ins| == |c.captured| && captured != []
    ensures CopyOf(BranchLift(c.ins + [i], c.captured + [captured]), Node(Identity, [i], [captured[0]]))
  {
    var c' := BranchLift(c.ins + [i], c.captured + [captured]);
    assert captured[0] in c'.captured[|c.ins|] && c'.ins[|c.ins|] == i;
  }

  /** One more input of a branch, copied to the captured value of that name, if there is one. */
  method AddBranchInput(body: Graph, captured: seq<ValueId>, ghost branch: Branch, ghost inputs: seq<ValueId>,
                        ghost c: BranchLift, ghost base: nat)
    returns (i: ValueId, ghost c': BranchLift)
    requires body.Valid({}) && Listed(body) && |captured| <= 1 && base <= body.nextValue
    requires captured != [] ==> captured[0] !in body.producer && captured[0] < body.nextValue
    requires BranchLifting(branch, body.node, inputs, c, base, body.nextValue)
    modifies body
    ensures body.Valid({}) && Listed(body) && i == old(body.nextValue) && body.nextValue == i + 1
    ensures c' == BranchLift(c.ins + [i], c.captured + [captured])
    ensures BranchLifting(branch, body.node, inputs + [i], c', base, body.nextValue)
    ensures body.producer.Keys == old(body.producer.Keys) + SetOf(captured)
  {
    hide DefUse, Written, Has, NodesAdded, Within, BranchLifting;
    ghost var before, bound := body.node, body.nextValue;
    WithinItself(before);
    i := body.AddValue({});
    if captured != [] {
      assert captured == [captured[0]];
      EmitTo(body, Identity, [i], captured[0]);
    }
    BranchMore(branch, before, body.node, inputs, c, base, bound, i, captured);
    c' := BranchLift(c.ins + [i], c.captured + [captured]);
  }

  /** The captured values of a branch by name, each name once, written by nobody. */
  ghost predicate Awaiting(byName: map<nat, ValueId>, written: set<ValueId>, bound: nat, done: seq<nat>) {
    && (forall x :: x in byName && x !in done ==> byName[x] !in written && byName[x] < bound)
    && (forall x, y :: x in byName && y in byName && byName[x] == byName[y] ==> x == y)
  }

  ghost function CapturedAs(byName: map<nat, ValueId>, x: nat): seq<ValueId> {
    if x in byName then [byName[x]] else []
  }

  lemma AwaitingMore(byName: map<nat, ValueId>, written: set<ValueId>, written': set<ValueId>, bound: nat,
                     done: seq<nat>, x: nat)
    requires Awaiting(byName, written, bound, done) && x !in done
    requires written' == written + SetOf(CapturedAs(byName, x))
    ensures Awaiting(byName, written', bound + 1, done + [x])
    ensures x in byName ==> byName[x] !in written && byName[x] < bound
  {
  }

  /** The loop of the If case: one more input per name for the If and for both branches. */
  method LiftNames(graph: Graph, n: IfNode, names: seq<nat>, thenByName: map<nat, ValueId>,
                   elseByName: map<nat, ValueId>, symtab: map<nat, ValueId>)
    returns (externals: seq<ValueId>, ghost t: BranchLift, ghost e: BranchLift)
    requires graph.Valid({}) && n.thenBranch.Valid({}) && n.elseBranch.Valid({}) && n.Value().Validates()
    requires Listed(n.thenBranch) && Listed(n.elseBranch)
    requires graph != n.thenBranch && graph != n.elseBranch && n.thenBranch != n.elseBranch
    requires Distinct(names) && SetOf(names) == thenByName.Keys + elseByName.Keys
    requires Awaiting(thenByName, n.thenBranch.producer.Keys, n.thenBranch.nextValue, [])
    requires Awaiting(elseByName, n.elseBranch.producer.Keys, n.elseBranch.nextValue, [])
    modifies graph`nextValue, n.thenBranch, n.elseBranch, n`inputs, n`thenInputs, n`elseInputs
    ensures graph.Valid({}) && IfLifted(old(n.Value()), n.Value(), externals, t, e)
    ensures NamesLifted(names, |names|, thenByName, elseByName, symtab, old(graph.nextValue), externals, t, e)
    ensures BranchLifting(old(n.Value()).thenBranch, n.thenBranch.node, n.thenInputs, t, old(n.thenBranch.nextValue),
                          n.thenBranch.nextValue)
    ensures BranchLifting(old(n.Value()).elseBranch, n.elseBranch.node, n.elseInputs, e, old(n.elseBranch.nextValue),
                          n.elseBranch.nextValue)
  {
    hide *;
    ghost var n0 := n.Value();
    ghost var thenBase, elseBase := n.thenBranch.nextValue, n.elseBranch.nextValue;
    IfIs(n);
    externals, t, e := [], BranchLift([], []), BranchLift([], []);
    BranchNothing(n0.thenBranch, thenBase);
    BranchNothing(n0.elseBranch, elseBase);
    assert n.inputs + externals == n.inputs;
    NoneLifted(names, thenByName, elseByName, symtab, graph.nextValue);
    var k := 0;
    while k < |names|
      modifies graph`nextValue, n.thenBranch, n.elseBranch, n`inputs, n`thenInputs, n`elseInputs
      invariant 0 <= k <= |names| && graph.Valid({}) && n.thenBranch.Valid({}) && n.elseBranch.Valid({})
      invariant Listed(n.thenBranch) && Listed(n.elseBranch) && old(graph.nextValue) <= graph.nextValue
      invariant thenBase <= n.thenBranch.nextValue && elseBase <= n.elseBranch.nextValue
      invariant n.inputs == n0.inputs + externals
      invariant NamesLifted(names, k, thenByName, elseByName, symtab, old(graph.nextValue), externals, t, e)
      invariant BranchLifting(n0.thenBranch, n.thenBranch.node, n.thenInputs, t, thenBase, n.thenBranch.nextValue)
      invariant BranchLifting(n0.elseBranch, n.elseBranch.node, n.elseInputs, e, elseBase, n.elseBranch.nextValue)
      invariant Awaiting(thenByName, n.thenBranch.producer.Keys, n.thenBranch.nextValue, names[..k])
      invariant Awaiting(elseByName, n.elseBranch.producer.Keys, n.elseBranch.nextValue, names[..k])
    {
      ghost var t0, e0, externals0 := t, e, externals;
      var x := names[k];
      NameIsNew(names, k);
      assert names[..k + 1] == names[..k] + [x];
      n.thenInputs, t := AddNamed(n.thenBranch, thenByName, x, names[..k], n0.thenBranch, n.thenInputs, t, thenBase);
      n.elseInputs, e := AddNamed(n.elseBranch, elseByName, x, names[..k], n0.elseBranch, n.elseInputs, e, elseBase);
      var external;
      if x in symtab { external := symtab[x]; } else { external := graph.AddValue({}); }
      n.inputs := n.inputs + [external];
      externals := externals + [external];
      assert n.inputs == n0.inputs + externals;
      NameLifted(names, k, thenByName, elseByName, symtab, old(graph.nextValue), externals0, t0, e0, external, t, e);
      k := k + 1;
    }
    IfIs(n);
    LiftedSizes(names, thenByName, elseByName, symtab, old(graph.nextValue), externals, t, e);
    BranchDone(n0.thenBranch, n.Value().thenBranch, externals, t, thenBase, n.thenBranch.nextValue);
    BranchDone(n0.elseBranch, n.Value().elseBranch, externals, e, elseBase, n.elseBranch.nextValue);
    IfIsLifted(n0, n.Value(), externals, t, e);
  }

  /** The first `k` names have been captured: from the outer graph if they are known there. */
  ghost predicate NamesLifted(names: seq<nat>, k: nat, thenByName: map<nat, ValueId>, elseByName: map<nat, ValueId>,
                              symtab: map<nat, ValueId>, low: nat, externals: seq<ValueId>, t: BranchLift,
                              e: BranchLift) {
    && |externals| == |t.captured| == |e.captured| == k <= |names|
    && (forall r :: 0 <= r < k ==>
          t.captured[r] == CapturedAs(thenByName, names[r]) && e.captured[r] == CapturedAs(elseByName, names[r]))
    && forall r :: 0 <= r < k ==> if names[r] in symtab then externals[r] == symtab[names[r]] else externals[r] >= low
  }

  lemma NoneLifted(names: seq<nat>, thenByName: map<nat, ValueId>, elseByName: map<nat, ValueId>,
                   symtab: map<nat, ValueId>, low: nat)
    ensures NamesLifted(names, 0, thenByName, elseByName, symtab, low, [], BranchLift([], []), BranchLift([], []))
    ensures names[..0] == []
  {
  }

  lemma NameLifted(names: seq<nat>, k: nat, thenByName: map<nat, ValueId>, elseByName: map<nat, ValueId>,
                   symtab: map<nat, ValueId>, low: nat, externals: seq<ValueId>, t: BranchLift, e: BranchLift,
                   external: ValueId, t': BranchLift, e': BranchLift)
    requires NamesLifted(names, k, thenByName, elseByName, symtab, low, externals, t, e) && k < |names|
    requires t'.captured == t.captured + [CapturedAs(thenByName, names[k])]
    requires e'.captured == e.captured + [CapturedAs(elseByName, names[k])]
    requires if names[k] in symtab then external == symtab[names[k]] else external >= low
    ensures NamesLifted(names, k + 1, thenByName, elseByName, symtab, low, externals + [external], t', e')
  {
    hide CapturedAs;
  }

  lemma LiftedSizes(names: seq<nat>, thenByName: map<nat, ValueId>, elseByName: map<nat, ValueId>,
                    symtab: map<nat, ValueId>, low: nat, externals: seq<ValueId>, t: BranchLift, e: BranchLift)
    requires NamesLifted(names, |names|, thenByName, elseByName, symtab, low, externals, t, e)
    ensures |externals| == |t.captured| == |e.captured|
  {
  }

  lemma IfIs(n: IfNode)
    ensures n.Value() ==
      If(n.inputs, n.outputs, Branch(n.thenBranch.node, n.thenInputs, n.thenOutputs),
         Branch(n.elseBranch.node, n.elseInputs, n.elseOutputs))
  {
  }

  lemma IfIsLifted(n: If, lifted: If, externals: seq<ValueId>, t: BranchLift, e: BranchLift)
    requires n.Validates() && lifted.inputs == n.inputs + externals && lifted.outputs == n.outputs
    requires BranchLifted(n.thenBranch, lifted.thenBranch, externals, t)
    requires BranchLifted(n.elseBranch, lifted.elseBranch, externals, e)
    ensures IfLifted(n, lifted, externals, t, e)
  {
    hide BranchLifted;
  }

  lemma NameIsNew(names: seq<nat>, k: nat)
    requires Distinct(names) && k < |names|
    ensures names[k] !in names[..k]
  {
  }

  lemma BranchNothing(branch: Branch, base: nat)
    ensures BranchLifting(branch, branch.node, branch.inputs, BranchLift([], []), base, base)
  {
    assert branch.inputs + [] == branch.inputs;
  }

  lemma BranchDone(branch: Branch, lifted: Branch, externals: seq<ValueId>, c: BranchLift, base: nat, bound: nat)
    requires BranchLifting(branch, lifted.node, lifted.inputs, c, base, bound) && |c.captured| == |externals|
    requires lifted.outputs == branch.outputs
    ensures BranchLifted(branch, lifted, externals, c)
  {
    hide Has;
  }

  /** The input for name `x` in one branch. */
  method AddNamed(body: Graph, byName: map<nat, ValueId>, x: nat, ghost done: seq<nat>, ghost branch: Branch,
                  inputs: seq<ValueId>, ghost c: BranchLift, ghost base: nat)
    returns (inputs': seq<ValueId>, ghost c': BranchLift)
    requires body.Valid({}) && Listed(body) && base <= body.nextValue && x !in done
    requires Awaiting(byName, body.producer.Keys, body.nextValue, done)
    requires BranchLifting(branch, body.node, inputs, c, base, body.nextValue)
    modifies body
    ensures body.Valid({}) && Listed(body) && base <= body.nextValue
    ensures BranchLifting(branch, body.node, inputs', c', base, body.nextValue)
    ensures Awaiting(byName, body.producer.Keys, body.nextValue, done + [x])
    ensures c'.captured == c.captured + [CapturedAs(byName, x)]
  {
    hide DefUse, Written, Below, BranchLifting, Listed, Awaiting;
    ghost var written, bound := body.producer.Keys, body.nextValue;
    var i;
    AwaitingMore(byName, written, written + SetOf(CapturedAs(byName, x)), bound, done, x);
    i, c' := AddBranchInput(body, if x in byName then [byName[x]] else [], branch, inputs, c, base);
    inputs' := inputs + [i];
  }

  /** So runs carry over in both directions. */
  lemma BranchIsNew(branch: Branch, lifted: Branch, externals: seq<ValueId>, c: BranchLift, base: nat, bound: nat)
    requires BranchLifting(branch, lifted.node, lifted.inputs, c, base, bound) && |c.captured| == |externals|
    requires AllIn(branch.inputs, base) && AllIn(branch.outputs, base)
    requires forall r, v :: 0 <= r < |externals| && v in c.captured[r] ==> v < base
    requires forall n :: n in branch.node ==> BelowNode(branch.node[n], base)
    ensures NewInBranch(branch, lifted, externals, c, base)
  {
    forall n | n in lifted.node && !(n in branch.node && lifted.node[n] == branch.node[n])
      ensures NewBranchCopy(externals, c, lifted.node[n])
    {
      assert CopyOf(c, lifted.node[n]);
    }
  }

  /** A branch that may capture values, each under a name of its own. */
  ghost predicate BranchOk(body: Graph, inputs: seq<ValueId>, outputs: seq<ValueId>, nulls: set<ValueId>,
                           names: ValueId -> nat)
    reads body
  {
    && body.Valid({}) && Listed(body) && AllIn(inputs, body.nextValue) && AllIn(outputs, body.nextValue)
    && (forall w :: w in body.producer ==> body.producer[w] in body.node)
    && (forall v, w :: v !in nulls && w !in nulls && names(v) == names(w) ==> v == w)
  }

  /** The required values of a branch by their names. */
  method RequiredByName(body: Graph, inputs: seq<ValueId>, outputs: seq<ValueId>, nulls: set<ValueId>,
                        names: ValueId -> nat)
    returns (byName: map<nat, ValueId>)
    requires BranchOk(body, inputs, outputs, nulls, names)
    ensures ByName(byName, body.node, inputs, outputs, nulls, names)
    ensures Awaiting(byName, body.producer.Keys, body.nextValue, [])
  {
    var values := GetRequiredValues(body, inputs, outputs, nulls);
    byName := map[];
    var todo := values;
    hide Required;
    while todo != {}
      invariant todo <= values
      invariant forall v :: v in values - todo ==> names(v) in byName
      invariant forall x :: x in byName ==> byName[x] in values - todo && names(byName[x]) == x
      decreases todo
    {
      var v :| v in todo;
      RequiredIsNotNull(body.node, inputs, outputs, nulls, v);
      byName := byName[names(v) := v];
      todo := todo - {v};
    }
    forall v | v in values ensures byName[names(v)] == v {
      RequiredIsNotNull(body.node, inputs, outputs, nulls, v);
      RequiredIsNotNull(body.node, inputs, outputs, nulls, byName[names(v)]);
    }
    forall x | x in byName ensures byName[x] !in body.producer && byName[x] < body.nextValue {
      RequiredIsFree(body, inputs, outputs, nulls, byName[x]);
    }
  }

  lemma RequiredIsNotNull(node: map<NodeId, Node>, inputs: seq<ValueId>, outputs: seq<ValueId>, nulls: set<ValueId>,
                          v: ValueId)
    requires Required(node, inputs, outputs, nulls, v)
    ensures v !in nulls
  {
  }

  ghost predicate ByName(byName: map<nat, ValueId>, node: map<NodeId, Node>, inputs: seq<ValueId>,
                         outputs: seq<ValueId>, nulls: set<ValueId>, names: ValueId -> nat) {
    && (forall v :: Required(node, inputs, outputs, nulls, v) ==> names(v) in byName && byName[names(v)] == v)
    && (forall x :: x in byName ==> Required(node, inputs, outputs, nulls, byName[x]) && names(byName[x]) == x)
  }

  /** The names of both maps, each once. */
  method AllNames(a: map<nat, ValueId>, b: map<nat, ValueId>) returns (names: seq<nat>)
    ensures Distinct(names) && SetOf(names) == a.Keys + b.Keys
  {
    names := ListOf(a.Keys + b.Keys);
  }

  /** The captured values are those that the branch required, and it requires none any more. */
  ghost predicate AllCaptured(branch: Branch, lifted: Branch, nulls: set<ValueId>, c: BranchLift) {
    && (forall v ::
          Required(branch.node, branch.inputs, branch.outputs, nulls, v) <==>
            exists r :: 0 <= r < |c.captured| && v in c.captured[r])
    && (forall v :: !Required(lifted.node, lifted.inputs, lifted.outputs, nulls, v))
  }

  lemma CapturedAll(branch: Branch, nulls: set<ValueId>, names: ValueId -> nat, byName: map<nat, ValueId>,
                    all: seq<nat>, c: BranchLift, v: ValueId)
    requires ByName(byName, branch.node, branch.inputs, branch.outputs, nulls, names) && byName.Keys <= SetOf(all)
    requires |c.captured| == |all| && forall r :: 0 <= r < |all| ==> c.captured[r] == CapturedAs(byName, all[r])
    ensures Required(branch.node, branch.inputs, branch.outputs, nulls, v) <==>
      exists r :: 0 <= r < |c.captured| && v in c.captured[r]
  {
    hide Required;
    if Required(branch.node, branch.inputs, branch.outputs, nulls, v) {
      assert names(v) in SetOf(all);
      var r :| 0 <= r < |all| && all[r] == names(v);
      assert v in c.captured[r];
    }
  }

  lemma BranchRequiresNothing(branch: Branch, lifted: Branch, nulls: set<ValueId>, c: BranchLift, base: nat, bound: nat,
                              v: ValueId)
    requires BranchLifting(branch, lifted.node, lifted.inputs, c, base, bound) && lifted.outputs == branch.outputs
    requires forall w ::
      Required(branch.node, branch.inputs, branch.outputs, nulls, w) <==>
        exists r :: 0 <= r < |c.captured| && w in c.captured[r]
    ensures !Required(lifted.node, lifted.inputs, lifted.outputs, nulls, v)
  {
    hide Has;
    if r :| 0 <= r < |c.captured| && v in c.captured[r] {
      assert CopiedTo(lifted.node, c.ins[r], c.captured[r]);
      CopyWrites(lifted.node, c.ins[r], v);
    } else if v !in lifted.inputs {
      forall n, w | n in lifted.node && w in lifted.node[n].inputs
        && !(n in branch.node && lifted.node[n] == branch.node[n])
        ensures w in c.ins
      {
        assert CopyOf(c, lifted.node[n]);
      }
      assert v !in branch.inputs && v !in c.ins;
      assert !Required(branch.node, branch.inputs, branch.outputs, nulls, v);
      if ReadIn(lifted.node, v) {
        var n :| n in lifted.node && v in lifted.node[n].inputs;
        assert n in branch.node && lifted.node[n] == branch.node[n];
      }
      if WrittenIn(branch.node, v) {
        var n :| n in branch.node && v in branch.node[n].outputs;
        assert v in lifted.node[n].outputs;
      }
    }
  }

  lemma CopyWrites(node: map<NodeId, Node>, x: ValueId, v: ValueId)
    requires Has(node, Node(Identity, [x], [v]))
    ensures WrittenIn(node, v)
  {
    var n :| n in node && node[n] == Node(Identity, [x], [v]);
    assert v in node[n].outputs;
  }

  lemma BranchFinished(branch: Branch, lifted: Branch, nulls: set<ValueId>, names: ValueId -> nat,
                       byName: map<nat, ValueId>, all: seq<nat>, externals: seq<ValueId>, c: BranchLift, base: nat,
                       bound: nat)
    requires BranchLifting(branch, lifted.node, lifted.inputs, c, base, bound) && lifted.outputs == branch.outputs
    requires ByName(byName, branch.node, branch.inputs, branch.outputs, nulls, names) && byName.Keys <= SetOf(all)
    requires |c.captured| == |all| == |externals|
    requires forall r :: 0 <= r < |all| ==> c.captured[r] == CapturedAs(byName, all[r])
    requires AllIn(branch.inputs, base) && AllIn(branch.outputs, base)
    requires forall x :: x in byName ==> byName[x] < base
    requires forall n :: n in branch.node ==> BelowNode(branch.node[n], base)
    ensures AllCaptured(branch, lifted, nulls, c) && NewInBranch(branch, lifted, externals, c, base)
  {
    hide ByName, BranchLifting, Required;
    forall v
      ensures Required(branch.node, branch.inputs, branch.outputs, nulls, v) <==>
        exists r :: 0 <= r < |c.captured| && v in c.captured[r]
    {
      CapturedAll(branch, nulls, names, byName, all, c, v);
    }
    forall v ensures !Required(lifted.node, lifted.inputs, lifted.outputs, nulls, v) {
      BranchRequiresNothing(branch, lifted, nulls, c, base, bound, v);
    }
    BranchIsNew(branch, lifted, externals, c, base, bound);
  }

  lemma BranchIsOld(body: Graph, inputs: seq<ValueId>, outputs: seq<ValueId>, nulls: set<ValueId>,
                    names: ValueId -> nat)
    requires BranchOk(body, inputs, outputs, nulls, names)
    ensures AllIn(inputs, body.nextValue) && AllIn(outputs, body.nextValue)
    ensures forall n :: n in body.node ==> BelowNode(body.node[n], body.nextValue)
  {
    hide DefUse;
    assert forall i :: 0 <= i < |inputs| ==> inputs[i] in inputs;
    assert forall i :: 0 <= i < |outputs| ==> outputs[i] in outputs;
  }

  lemma AwaitingBelow(byName: map<nat, ValueId>, written: set<ValueId>, bound: nat)
    requires Awaiting(byName, written, bound, [])
    ensures forall x :: x in byName ==> byName[x] < bound
  {
  }

  /** The If case of ResolveExternalDependencies, for branches without unresolved subgraphs. */
  method LiftIf(graph: Graph, n: IfNode, thenNulls: set<ValueId>, elseNulls: set<ValueId>,
                thenNames: ValueId -> nat, elseNames: ValueId -> nat, symtab: map<nat, ValueId>)
    returns (externals: seq<ValueId>, ghost names: seq<nat>, ghost t: BranchLift, ghost e: BranchLift)
    requires graph.Valid({}) && n.Value().Validates()
    requires BranchOk(n.thenBranch, n.thenInputs, n.thenOutputs, thenNulls, thenNames)
    requires BranchOk(n.elseBranch, n.elseInputs, n.elseOutputs, elseNulls, elseNames)
    requires graph != n.thenBranch && graph != n.elseBranch && n.thenBranch != n.elseBranch
    modifies graph`nextValue, n.thenBranch, n.elseBranch, n`inputs, n`thenInputs, n`elseInputs
    ensures graph.Valid({}) && IfLifted(old(n.Value()), n.Value(), externals, t, e)
    // The captured values of both branches are what they required, by name; nothing is left.
    ensures AllCaptured(old(n.Value()).thenBranch, n.Value().thenBranch, thenNulls, t)
    ensures AllCaptured(old(n.Value()).elseBranch, n.Value().elseBranch, elseNulls, e)
    ensures Distinct(names) && |externals| == |names| && forall r :: 0 <= r < |names| ==>
      (forall v :: v in t.captured[r] ==> thenNames(v) == names[r])
        && (forall v :: v in e.captured[r] ==> elseNames(v) == names[r])
    ensures forall r :: 0 <= r < |names| ==>
      if names[r] in symtab then externals[r] == symtab[names[r]] else externals[r] >= old(graph.nextValue)
    ensures NewInBranch(old(n.Value()).thenBranch, n.Value().thenBranch, externals, t, old(n.thenBranch.nextValue))
    ensures NewInBranch(old(n.Value()).elseBranch, n.Value().elseBranch, externals, e, old(n.elseBranch.nextValue))
  {
    hide DefUse, Written, Below, Has, Within, BranchLifting, Awaiting, Distinct, Required, AllCaptured, NewInBranch,
      IfLifted;
    ghost var n0, thenBase, elseBase := n.Value(), n.thenBranch.nextValue, n.elseBranch.nextValue;
    var thenByName := RequiredByName(n.thenBranch, n.thenInputs, n.thenOutputs, thenNulls, thenNames);
    var elseByName := RequiredByName(n.elseBranch, n.elseInputs, n.elseOutputs, elseNulls, elseNames);
    BranchIsOld(n.thenBranch, n.thenInputs, n.thenOutputs, thenNulls, thenNames);
    BranchIsOld(n.elseBranch, n.elseInputs, n.elseOutputs, elseNulls, elseNames);
    AwaitingBelow(thenByName, n.thenBranch.producer.Keys, thenBase);
    AwaitingBelow(elseByName, n.elseBranch.producer.Keys, elseBase);
    var all := AllNames(thenByName, elseByName);
    externals, t, e := LiftNames(graph, n, all, thenByName, elseByName, symtab);
    names := all;
    BranchFinished(n0.thenBranch, n.Value().thenBranch, thenNulls, thenNames, thenByName, all, externals, t, thenBase,
                   n.thenBranch.nextValue);
    BranchFinished(n0.elseBranch, n.Value().elseBranch, elseNulls, elseNames, elseByName, all, externals, e, elseBase,
                   n.elseBranch.nextValue);
  }
}
