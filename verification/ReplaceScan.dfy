/** compiler/simplifier.cc, ReplaceScan: a Scan node becomes a Loop over sequences. */
module ReplaceScan {
  import opened Ir
  import opened GraphIr
  import opened Builder
  import opened Loops
  import opened ScanMeaning

  /** Nodes of `after` that were not there before are among the first `k` of a family. */
  ghost predicate Family(before: map<NodeId, Node>, after: map<NodeId, Node>, family: nat -> Node, k: nat) {
    && Within(before, after)
    && (forall i :: 0 <= i < k ==> Has(after, family(i)))
    && (forall n :: n in after ==> (n in before && after[n] == before[n]) || Member(family, k, after[n]))
  }

  ghost predicate Member(family: nat -> Node, k: nat, n: Node) {
    exists i :: 0 <= i < k && n == family(i)
  }

  lemma FamilyNone(before: map<NodeId, Node>, family: nat -> Node)
    ensures Family(before, before, family, 0)
  {
  }

  lemma FamilyMore(before: map<NodeId, Node>, between: map<NodeId, Node>, after: map<NodeId, Node>,
                   family: nat -> Node, family': nat -> Node, k: nat)
    requires Family(before, between, family, k) && forall i :: 0 <= i < k ==> family'(i) == family(i)
    requires Within(between, after) && Has(after, family'(k)) && NodesAdded(between, after, family'(k))
    ensures Family(before, after, family', k + 1)
  {
    hide Has;
    forall i | 0 <= i < k + 1 ensures Has(after, family'(i)) {
      if i < k { HasWithin(between, after, family(i)); }
    }
    forall n | n in after && !(n in before && after[n] == before[n]) ensures Member(family', k + 1, after[n]) {
      if n in between {
        assert Member(family, k, between[n]);
        var i :| 0 <= i < k && between[n] == family(i);
        assert after[n] == family'(i);
      } else {
        assert after[n] == family'(k);
      }
    }
  }

  /** Two families, one after the other. */
  lemma FamilyThen(a: map<NodeId, Node>, b: map<NodeId, Node>, c: map<NodeId, Node>, f: nat -> Node, k: nat,
                   g: nat -> Node, m: nat)
    requires Family(a, b, f, k) && Family(b, c, g, m)
    ensures Within(a, c) && (forall i :: 0 <= i < k ==> Has(c, f(i)))
    ensures forall n :: n in c ==> (n in a && c[n] == a[n]) || Member(f, k, c[n]) || Member(g, m, c[n])
  {
    hide Has;
    WithinTrans(a, b, c);
    forall i | 0 <= i < k ensures Has(c, f(i)) { HasWithin(b, c, f(i)); }
  }

  // ---- the families ----

  function AtNodes(origs: seq<ValueId>, iter: ValueId, ins: seq<ValueId>): nat -> Node {
    (i: nat) => if i < |origs| && i < |ins| then Node(SequenceAt, [ins[i], iter], [origs[i]]) else
      Node(Identity, [], [])
  }

  function CopyNodes(ins: seq<ValueId>, outs: seq<ValueId>): nat -> Node {
    (i: nat) => if i < |outs| && i < |ins| then Node(Identity, [ins[i]], [outs[i]]) else Node(Identity, [], [])
  }

  function InsertNodes(accIns: seq<ValueId>, origs: seq<ValueId>, accOuts: seq<ValueId>): nat -> Node {
    (i: nat) =>
      if i < |accIns| && i < |origs| && i < |accOuts| then Node(SequenceInsert, [accIns[i], origs[i]], [accOuts[i]])
      else Node(Identity, [], [])
  }

  function SplitNodes(inputs: seq<ValueId>, seqs: seq<ValueId>): nat -> Node {
    (i: nat) => if i < |inputs| && i < |seqs| then Node(SplitToSequence, [inputs[i]], [seqs[i]]) else
      Node(Identity, [], [])
  }

  function EmptyNodes(empties: seq<ValueId>): nat -> Node {
    (i: nat) => if i < |empties| then Node(SequenceConstruct, [], [empties[i]]) else Node(Identity, [], [])
  }

  function ConcatNodes(outs: seq<ValueId>, outputs: seq<ValueId>): nat -> Node {
    (i: nat) => if i < |outs| && i < |outputs| then Node(ConcatFromSequence, [outs[i]], [outputs[i]]) else
      Node(Identity, [], [])
  }

  /** The first `j` of `at`, and the first `k` of `copy`. */
  function Both(at: nat -> Node, copy: nat -> Node): nat -> Node {
    (i: nat) => if i % 2 == 0 then at(i / 2) else copy(i / 2)
  }

  /** From the `k`-th on, nobody writes the values yet. */
  ghost predicate Unwritten(written: set<ValueId>, bound: nat, vs: seq<ValueId>, k: nat) {
    k <= |vs| && forall i :: k <= i < |vs| ==> vs[i] !in written && vs[i] < bound
  }

  lemma UnwrittenNext(written: set<ValueId>, bound: nat, vs: seq<ValueId>, k: nat, v: ValueId, bound': nat)
    requires Unwritten(written, bound, vs, k) && k < |vs| && bound <= v && bound <= bound' && Distinct(vs)
    ensures Unwritten(written + {vs[k], v}, bound', vs, k + 1) && vs[k] !in written && vs[k] < bound
    ensures Unwritten(written + {vs[k]}, bound', vs, k + 1)
  {
  }

  /** Of the values below `low`, only `vs` have been written since. */
  ghost predicate OnlyThese(before: set<ValueId>, after: set<ValueId>, low: nat, vs: seq<ValueId>) {
    forall v :: v in after && v < low ==> v in before || v in vs
  }

  lemma OnlyTheseMore(before: set<ValueId>, after: set<ValueId>, low: nat, vs: seq<ValueId>, k: nat, o: ValueId)
    requires OnlyThese(before, after, low, vs) && k < |vs| && low <= o
    ensures OnlyThese(before, after + {vs[k], o}, low, vs)
  {
  }

  ghost predicate Newest(vs: seq<ValueId>, low: nat, high: nat) {
    Increasing(vs, low) && AllIn(vs, high)
  }

  lemma NewestMore(vs: seq<ValueId>, low: nat, high: nat, v: ValueId, high': nat)
    requires Newest(vs, low, high) && low <= high <= v < high'
    ensures Newest(vs + [v], low, high')
  {
  }

  // ---- inside ----

  method ReadScanInput(body: Graph, orig: ValueId, iter: ValueId)
    returns (i: ValueId, o: ValueId, ghost between: map<NodeId, Node>)
    requires body.Valid({}) && iter < body.nextValue && orig < body.nextValue && orig !in body.producer
    modifies body
    ensures body.Valid({}) && i == old(body.nextValue) && o == i + 1 && body.nextValue == o + 1
    ensures Within(old(body.node), between) && Within(between, body.node)
    ensures Has(between, Node(SequenceAt, [i, iter], [orig]))
    ensures NodesAdded(old(body.node), between, Node(SequenceAt, [i, iter], [orig]))
    ensures Has(body.node, Node(Identity, [i], [o])) && NodesAdded(between, body.node, Node(Identity, [i], [o]))
    ensures body.producer.Keys == old(body.producer.Keys) + {orig, o}
  {
    hide DefUse, Written, Within, Has, NodesAdded;
    i := body.AddValue({});
    o := body.AddValue({});
    EmitTo(body, SequenceAt, [i, iter], orig);
    between := body.node;
    EmitTo(body, Identity, [i], o);
  }

  /** The scan inputs become elements of sequences. */
  method ReadScanInputs(body: Graph, origs: seq<ValueId>, iter: ValueId)
    returns (ins: seq<ValueId>, inOuts: seq<ValueId>)
    requires body.Valid({}) && iter < body.nextValue && Unwritten(body.producer.Keys, body.nextValue, origs, 0)
    requires Distinct(origs)
    modifies body
    ensures body.Valid({}) && body.nextValue >= old(body.nextValue)
    ensures |ins| == |inOuts| == |origs|
    ensures Family(old(body.node), body.node, Both(AtNodes(origs, iter, ins), CopyNodes(ins, inOuts)), 2 * |origs|)
    ensures Alternating(ins, inOuts, old(body.nextValue)) && AllIn(inOuts, body.nextValue)
    ensures OnlyThese(old(body.producer.Keys), body.producer.Keys, old(body.nextValue), origs)
  {
    hide *;
    UnwrittenFirst(body.producer.Keys, body.nextValue, origs);
    ins, inOuts := [], [];
    var k := 0;
    FamilyNone(body.node, Both(AtNodes(origs, iter, ins), CopyNodes(ins, inOuts)));
    AlternatingNone(old(body.nextValue));
    while k < |origs|
      modifies body
      invariant 0 <= k <= |origs| && |ins| == |inOuts| == k && body.Valid({}) && body.nextValue >= old(body.nextValue)
      invariant Family(old(body.node), body.node, Both(AtNodes(origs, iter, ins), CopyNodes(ins, inOuts)), 2 * k)
      invariant Alternating(ins, inOuts, old(body.nextValue)) && AllIn(inOuts, body.nextValue)
      invariant Unwritten(body.producer.Keys, body.nextValue, origs, k) && iter < body.nextValue
      invariant OnlyThese(old(body.producer.Keys), body.producer.Keys, old(body.nextValue), origs)
    {
      ghost var bound := body.nextValue;
      ghost var before := body.node;
      ghost var written := body.producer.Keys;
      UnwrittenNext(written, bound, origs, k, bound + 1, bound + 2);
      OnlyTheseMore(old(body.producer.Keys), written, old(body.nextValue), origs, k, bound + 1);
      var i, o;
      ghost var between;
      i, o, between := ReadScanInput(body, origs[k], iter);
      BothMore(old(body.node), before, between, body.node, origs, iter, ins, inOuts, i, o);
      AlternatingMore(ins, inOuts, old(body.nextValue), bound, i, o);
      ins, inOuts := ins + [i], inOuts + [o];
      k := k + 1;
    }
  }

  lemma UnwrittenFirst(written: set<ValueId>, low: nat, vs: seq<ValueId>)
    ensures OnlyThese(written, written, low, vs) && AllIn([], low)
  {
  }

  lemma AlternatingNone(low: nat)
    ensures Alternating([], [], low)
  {
  }

  lemma AlternatingMore(a: seq<ValueId>, b: seq<ValueId>, low: nat, high: nat, x: ValueId, y: ValueId)
    requires Alternating(a, b, low) && AllIn(b, high) && low <= high <= x < y
    ensures Alternating(a + [x], b + [y], low) && AllIn(b + [y], y + 1)
  {
    assert forall i :: 0 <= i < |a| ==> a[i] < b[i] < high;
  }

  lemma BothMore(first: map<NodeId, Node>, before: map<NodeId, Node>, between: map<NodeId, Node>,
                 after: map<NodeId, Node>, origs: seq<ValueId>, iter: ValueId, ins: seq<ValueId>, inOuts: seq<ValueId>,
                 i: ValueId, o: ValueId)
    requires |ins| == |inOuts| < |origs|
    requires Family(first, before, Both(AtNodes(origs, iter, ins), CopyNodes(ins, inOuts)), 2 * |ins|)
    requires Within(before, between) && Within(between, after)
    requires Has(between, Node(SequenceAt, [i, iter], [origs[|ins|]]))
    requires NodesAdded(before, between, Node(SequenceAt, [i, iter], [origs[|ins|]]))
    requires Has(after, Node(Identity, [i], [o])) && NodesAdded(between, after, Node(Identity, [i], [o]))
    ensures Family(first, after, Both(AtNodes(origs, iter, ins + [i]), CopyNodes(ins + [i], inOuts + [o])),
                   2 * |ins| + 2)
  {
    hide Has, Within, Family, NodesAdded;
    var k := |ins|;
    var f, g := Both(AtNodes(origs, iter, ins), CopyNodes(ins, inOuts)), Both(AtNodes(origs, iter, ins + [i]),
                     CopyNodes(ins + [i], inOuts + [o]));
    forall j | 0 <= j < 2 * k ensures g(j) == f(j) { assert j / 2 < k; }
    assert g(2 * k) == Node(SequenceAt, [i, iter], [origs[k]]);
    assert (2 * k + 1) / 2 == k && (2 * k + 1) % 2 == 1;
    assert g(2 * k + 1) == Node(Identity, [i], [o]);
    FamilyMore(first, before, between, f, g, 2 * k);
    FamilyMore(first, between, after, g, g, 2 * k + 1);
  }

  /** The scan outputs are collected in sequences. */
  method CollectScanOutputs(body: Graph, origs: seq<ValueId>) returns (accIns: seq<ValueId>, accOuts: seq<ValueId>)
    requires body.Valid({}) && AllIn(origs, body.nextValue)
    modifies body
    ensures body.Valid({}) && body.nextValue >= old(body.nextValue)
    ensures |accIns| == |accOuts| == |origs|
    ensures Family(old(body.node), body.node, InsertNodes(accIns, origs, accOuts), |origs|)
    ensures Alternating(accIns, accOuts, old(body.nextValue)) && AllIn(accOuts, body.nextValue)
  {
    hide DefUse, Written, Below, Family, Within, Has, NodesAdded, Alternating;
    accIns, accOuts := [], [];
    var k := 0;
    FamilyNone(body.node, InsertNodes(accIns, origs, accOuts));
    AlternatingNone(old(body.nextValue));
    while k < |origs|
      modifies body
      invariant 0 <= k <= |origs| && |accIns| == |accOuts| == k && body.Valid({})
      invariant body.nextValue >= old(body.nextValue)
      invariant Family(old(body.node), body.node, InsertNodes(accIns, origs, accOuts), k)
      invariant Alternating(accIns, accOuts, old(body.nextValue)) && AllIn(accOuts, body.nextValue)
    {
      ghost var bound := body.nextValue;
      ghost var before := body.node;
      var i := body.AddValue({});
      var o := Emit(body, SequenceInsert, [i, origs[k]]);
      FamilyMore(old(body.node), before, body.node, InsertNodes(accIns, origs, accOuts),
                 InsertNodes(accIns + [i], origs, accOuts + [o]), k);
      AlternatingMore(accIns, accOuts, old(body.nextValue), bound, i, o);
      accIns, accOuts := accIns + [i], accOuts + [o];
      k := k + 1;
    }
  }

  // ---- outside ----

  method SplitInputs(graph: Graph, inputs: seq<ValueId>) returns (seqs: seq<ValueId>)
    requires graph.Valid({}) && AllIn(inputs, graph.nextValue)
    modifies graph
    ensures graph.Valid({}) && graph.nextValue >= old(graph.nextValue) && |seqs| == |inputs|
    ensures Family(old(graph.node), graph.node, SplitNodes(inputs, seqs), |inputs|)
    ensures Newest(seqs, old(graph.nextValue), graph.nextValue)
    ensures forall v :: v in graph.producer && v < old(graph.nextValue) ==> v in old(graph.producer)
  {
    hide DefUse, Written, Below, Family, Within, Has, NodesAdded, Newest;
    seqs := [];
    var k := 0;
    FamilyNone(graph.node, SplitNodes(inputs, seqs));
    NewestNone(graph.nextValue);
    while k < |inputs|
      modifies graph
      invariant 0 <= k <= |inputs| && |seqs| == k && graph.Valid({}) && graph.nextValue >= old(graph.nextValue)
      invariant Family(old(graph.node), graph.node, SplitNodes(inputs, seqs), k)
      invariant Newest(seqs, old(graph.nextValue), graph.nextValue)
      invariant forall v :: v in graph.producer && v < old(graph.nextValue) ==> v in old(graph.producer)
    {
      ghost var before, bound := graph.node, graph.nextValue;
      var v := Emit(graph, SplitToSequence, [inputs[k]]);
      FamilyMore(old(graph.node), before, graph.node, SplitNodes(inputs, seqs), SplitNodes(inputs, seqs + [v]), k);
      NewestMore(seqs, old(graph.nextValue), bound, v, graph.nextValue);
      seqs := seqs + [v];
      k := k + 1;
    }
  }

  lemma NewestNone(low: nat)
    ensures Newest([], low, low)
  {
  }

  method EmptySequences(graph: Graph, count: nat) returns (empties: seq<ValueId>)
    requires graph.Valid({})
    modifies graph
    ensures graph.Valid({}) && graph.nextValue >= old(graph.nextValue) && |empties| == count
    ensures Family(old(graph.node), graph.node, EmptyNodes(empties), count)
    ensures Newest(empties, old(graph.nextValue), graph.nextValue)
    ensures forall v :: v in graph.producer && v < old(graph.nextValue) ==> v in old(graph.producer)
  {
    hide DefUse, Written, Below, Family, Within, Has, NodesAdded, Newest;
    empties := [];
    FamilyNone(graph.node, EmptyNodes(empties));
    NewestNone(graph.nextValue);
    while |empties| < count
      modifies graph
      invariant |empties| <= count && graph.Valid({}) && graph.nextValue >= old(graph.nextValue)
      invariant Family(old(graph.node), graph.node, EmptyNodes(empties), |empties|)
      invariant Newest(empties, old(graph.nextValue), graph.nextValue)
      invariant forall v :: v in graph.producer && v < old(graph.nextValue) ==> v in old(graph.producer)
    {
      ghost var before, bound := graph.node, graph.nextValue;
      var v := Emit(graph, SequenceConstruct, []);
      FamilyMore(old(graph.node), before, graph.node, EmptyNodes(empties), EmptyNodes(empties + [v]), |empties|);
      NewestMore(empties, old(graph.nextValue), bound, v, graph.nextValue);
      empties := empties + [v];
    }
  }

  /** New values without a producer. */
  method NewNulls(graph: Graph, count: nat) returns (vs: seq<ValueId>)
    requires graph.Valid({})
    modifies graph`nextValue
    ensures graph.Valid({}) && graph.nextValue >= old(graph.nextValue) && |vs| == count
    ensures Newest(vs, old(graph.nextValue), graph.nextValue)
  {
    hide DefUse, Written, Below, Newest;
    vs := [];
    NewestNone(graph.nextValue);
    while |vs| < count
      modifies graph`nextValue
      invariant |vs| <= count && graph.Valid({}) && graph.nextValue >= old(graph.nextValue)
      invariant Newest(vs, old(graph.nextValue), graph.nextValue)
    {
      ghost var bound := graph.nextValue;
      var v := graph.AddValue({});
      NewestMore(vs, old(graph.nextValue), bound, v, graph.nextValue);
      vs := vs + [v];
    }
  }

  method StackOutputs(graph: Graph, outputs: seq<ValueId>) returns (outs: seq<ValueId>)
    requires graph.Valid({}) && Unwritten(graph.producer.Keys, graph.nextValue, outputs, 0) && Distinct(outputs)
    modifies graph
    ensures graph.Valid({}) && graph.nextValue >= old(graph.nextValue) && |outs| == |outputs|
    ensures Family(old(graph.node), graph.node, ConcatNodes(outs, outputs), |outputs|)
    ensures Newest(outs, old(graph.nextValue), graph.nextValue)
  {
    hide DefUse, Written, Below, Family, Within, Has, NodesAdded, Distinct, Newest, Unwritten;
    outs := [];
    var k := 0;
    FamilyNone(graph.node, ConcatNodes(outs, outputs));
    NewestNone(graph.nextValue);
    while k < |outputs|
      modifies graph
      invariant 0 <= k <= |outputs| && |outs| == k && graph.Valid({}) && graph.nextValue >= old(graph.nextValue)
      invariant Family(old(graph.node), graph.node, ConcatNodes(outs, outputs), k)
      invariant Newest(outs, old(graph.nextValue), graph.nextValue)
      invariant Unwritten(graph.producer.Keys, graph.nextValue, outputs, k)
    {
      ghost var before, bound := graph.node, graph.nextValue;
      UnwrittenNext(graph.producer.Keys, bound, outputs, k, bound, bound + 1);
      var v := graph.AddValue({});
      EmitTo(graph, ConcatFromSequence, [v], outputs[k]);
      FamilyMore(old(graph.node), before, graph.node, ConcatNodes(outs, outputs), ConcatNodes(outs + [v], outputs), k);
      NewestMore(outs, old(graph.nextValue), bound, v, graph.nextValue);
      outs := outs + [v];
      k := k + 1;
    }
  }

  // ---- put together ----

  lemma InsideMade(scan: Scan, b1: map<NodeId, Node>, b2: map<NodeId, Node>, body: map<NodeId, Node>, c: Added)
    requires Sizes(scan, c)
    requires Within(scan.body, b1) && Has(b1, Node(Identity, [c.condIn], [c.condOut]))
    requires NodesAdded(scan.body, b1, Node(Identity, [c.condIn], [c.condOut]))
    requires Family(b1, b2, Both(AtNodes(scan.bodyInputs[scan.States()..], c.iter, c.ins), CopyNodes(c.ins, c.inOuts)),
                    2 * scan.numScanInputs)
    requires Family(b2, body, InsertNodes(c.accIns, scan.bodyOutputs[scan.States()..], c.accOuts), scan.NumOutputs())
    ensures Inside(scan, body, c)
  {
    hide Has, Within, Family, NodesAdded;
    var at, copy := AtNodes(scan.bodyInputs[scan.States()..], c.iter, c.ins), CopyNodes(c.ins, c.inOuts);
    var f, g := Both(at, copy), InsertNodes(c.accIns, scan.bodyOutputs[scan.States()..], c.accOuts);
    FamilyThen(b1, b2, body, f, 2 * scan.numScanInputs, g, scan.NumOutputs());
    FamilyParts(b2, body, g, scan.NumOutputs());
    WithinTrans(scan.body, b1, body);
    HasWithin(b1, body, Node(Identity, [c.condIn], [c.condOut]));
    forall i | 0 <= i < scan.numScanInputs
      ensures Has(body, Node(SequenceAt, [c.ins[i], c.iter], [scan.bodyInputs[scan.States() + i]]))
      ensures Has(body, Node(Identity, [c.ins[i]], [c.inOuts[i]]))
    {
      BothHas(body, at, copy, scan.numScanInputs, i);
      assert at(i) == Node(SequenceAt, [c.ins[i], c.iter], [scan.bodyInputs[scan.States() + i]]);
      assert copy(i) == Node(Identity, [c.ins[i]], [c.inOuts[i]]);
    }
    forall o | 0 <= o < scan.NumOutputs()
      ensures Has(body, Node(SequenceInsert, [c.accIns[o], scan.bodyOutputs[scan.States() + o]], [c.accOuts[o]]))
    {
      assert g(o) == Node(SequenceInsert, [c.accIns[o], scan.bodyOutputs[scan.States() + o]], [c.accOuts[o]]);
    }
  }

  lemma BothHas(body: map<NodeId, Node>, at: nat -> Node, copy: nat -> Node, k: nat, i: nat)
    requires i < k && forall j :: 0 <= j < 2 * k ==> Has(body, Both(at, copy)(j))
    ensures Has(body, at(i)) && Has(body, copy(i))
  {
    hide Has;
    assert (2 * i) / 2 == i && (2 * i + 1) / 2 == i && (2 * i + 1) % 2 == 1;
    assert Both(at, copy)(2 * i) == at(i) && Both(at, copy)(2 * i + 1) == copy(i);
  }

  lemma NothingElseInside(scan: Scan, b1: map<NodeId, Node>, b2: map<NodeId, Node>, body: map<NodeId, Node>, c: Added)
    requires Sizes(scan, c) && Within(scan.body, b1)
    requires NodesAdded(scan.body, b1, Node(Identity, [c.condIn], [c.condOut]))
    requires Family(b1, b2, Both(AtNodes(scan.bodyInputs[scan.States()..], c.iter, c.ins), CopyNodes(c.ins, c.inOuts)),
                    2 * scan.numScanInputs)
    requires Family(b2, body, InsertNodes(c.accIns, scan.bodyOutputs[scan.States()..], c.accOuts), scan.NumOutputs())
    ensures forall n :: n in body ==> (n in scan.body && body[n] == scan.body[n]) || BodyNode(scan, c, body[n])
  {
    hide Has, Within, Family, NodesAdded, Both, BodyNode, AtNodes, CopyNodes, InsertNodes;
    var f := Both(AtNodes(scan.bodyInputs[scan.States()..], c.iter, c.ins), CopyNodes(c.ins, c.inOuts));
    var g := InsertNodes(c.accIns, scan.bodyOutputs[scan.States()..], c.accOuts);
    FamilyThen(b1, b2, body, f, 2 * scan.numScanInputs, g, scan.NumOutputs());
    CondNode(scan, c);
    forall n | n in body && !(n in scan.body && body[n] == scan.body[n]) ensures BodyNode(scan, c, body[n]) {
      if n in b1 && body[n] == b1[n] {
        AddedIs(scan.body, b1, Node(Identity, [c.condIn], [c.condOut]), n);
      } else if Member(f, 2 * scan.numScanInputs, body[n]) {
        BothMember(scan, c, body[n]);
      } else {
        InsertMember(scan, c, body[n]);
      }
    }
  }

  lemma CondNode(scan: Scan, c: Added)
    requires Sizes(scan, c)
    ensures BodyNode(scan, c, Node(Identity, [c.condIn], [c.condOut]))
  {
  }

  lemma AddedIs(before: map<NodeId, Node>, after: map<NodeId, Node>, n: Node, id: NodeId)
    requires Within(before, after) && NodesAdded(before, after, n) && id in after
    ensures (id in before && after[id] == before[id]) || after[id] == n
  {
  }

  lemma BothMember(scan: Scan, c: Added, n: Node)
    requires Sizes(scan, c)
    requires Member(Both(AtNodes(scan.bodyInputs[scan.States()..], c.iter, c.ins), CopyNodes(c.ins, c.inOuts)),
                    2 * scan.numScanInputs, n)
    ensures BodyNode(scan, c, n)
  {
    var f := Both(AtNodes(scan.bodyInputs[scan.States()..], c.iter, c.ins), CopyNodes(c.ins, c.inOuts));
    var k :| 0 <= k < 2 * scan.numScanInputs && n == f(k);
    assert 0 <= k / 2 < scan.numScanInputs;
  }

  lemma InsertMember(scan: Scan, c: Added, n: Node)
    requires Sizes(scan, c)
    requires Member(InsertNodes(c.accIns, scan.bodyOutputs[scan.States()..], c.accOuts), scan.NumOutputs(), n)
    ensures BodyNode(scan, c, n)
  {
  }

  lemma OutsideMade(scan: Scan, o0: map<NodeId, Node>, o1: map<NodeId, Node>, o2: map<NodeId, Node>,
                    o3: map<NodeId, Node>, outer: map<NodeId, Node>, c: Added)
    requires Sizes(scan, c)
    requires Family(o0, o1, SplitNodes(scan.inputs[scan.States()..], c.seqs), scan.numScanInputs)
    requires Within(o1, o2) && Has(o2, Node(SequenceLength, [c.seqs[0]], [c.trips]))
    requires NodesAdded(o1, o2, Node(SequenceLength, [c.seqs[0]], [c.trips]))
    requires Family(o2, o3, EmptyNodes(c.empties), scan.NumOutputs())
    requires Family(o3, outer, ConcatNodes(c.outs, scan.outputs[scan.States()..]), scan.NumOutputs())
    ensures Outside(scan, outer, c) && Within(o0, outer)
    ensures forall n :: n in outer ==> (n in o0 && outer[n] == o0[n]) || OuterNode(scan, c, outer[n])
  {
    hide Has, Within, Family, NodesAdded, OuterNode;
    var f, g, h := SplitNodes(scan.inputs[scan.States()..], c.seqs), EmptyNodes(c.empties), ConcatNodes(c.outs,
                              scan.outputs[scan.States()..]);
    FamilyThen(o2, o3, outer, g, scan.NumOutputs(), h, scan.NumOutputs());
    FamilyParts(o0, o1, f, scan.numScanInputs);
    FamilyParts(o3, outer, h, scan.NumOutputs());
    WithinTrans(o0, o1, o2);
    WithinTrans(o0, o2, outer);
    WithinTrans(o1, o2, outer);
    HasWithin(o2, outer, Node(SequenceLength, [c.seqs[0]], [c.trips]));
    forall i | 0 <= i < scan.numScanInputs
      ensures Has(outer, Node(SplitToSequence, [scan.inputs[scan.States() + i]], [c.seqs[i]]))
    {
      assert f(i) == Node(SplitToSequence, [scan.inputs[scan.States() + i]], [c.seqs[i]]);
      HasWithin(o1, outer, f(i));
    }
    forall o | 0 <= o < scan.NumOutputs()
      ensures Has(outer, Node(SequenceConstruct, [], [c.empties[o]]))
      ensures Has(outer, Node(ConcatFromSequence, [c.outs[o]], [scan.outputs[scan.States() + o]]))
    {
      assert g(o) == Node(SequenceConstruct, [], [c.empties[o]]);
      assert h(o) == Node(ConcatFromSequence, [c.outs[o]], [scan.outputs[scan.States() + o]]);
    }
    forall n | n in outer && !(n in o0 && outer[n] == o0[n]) ensures OuterNode(scan, c, outer[n]) {
      if n in o2 && outer[n] == o2[n] {
        AddedIs(o1, o2, Node(SequenceLength, [c.seqs[0]], [c.trips]), n);
        LengthNode(scan, c);
        if outer[n] != Node(SequenceLength, [c.seqs[0]], [c.trips]) { SplitMember(scan, c, o1[n]); }
      } else {
        LaterMember(scan, c, outer[n]);
      }
    }
  }

  lemma FamilyParts(before: map<NodeId, Node>, after: map<NodeId, Node>, family: nat -> Node, k: nat)
    requires Family(before, after, family, k)
    ensures Within(before, after) && forall i :: 0 <= i < k ==> Has(after, family(i))
    ensures forall n :: n in after ==> (n in before && after[n] == before[n]) || Member(family, k, after[n])
  {
    hide Has;
  }

  lemma LengthNode(scan: Scan, c: Added)
    requires Sizes(scan, c)
    ensures OuterNode(scan, c, Node(SequenceLength, [c.seqs[0]], [c.trips]))
  {
  }

  lemma SplitMember(scan: Scan, c: Added, n: Node)
    requires Sizes(scan, c) && Member(SplitNodes(scan.inputs[scan.States()..], c.seqs), scan.numScanInputs, n)
    ensures OuterNode(scan, c, n)
  {
  }

  lemma LaterMember(scan: Scan, c: Added, n: Node)
    requires Sizes(scan, c)
    requires Member(EmptyNodes(c.empties), scan.NumOutputs(), n)
      || Member(ConcatNodes(c.outs, scan.outputs[scan.States()..]), scan.NumOutputs(), n)
    ensures OuterNode(scan, c, n)
  {
  }

  /** A scan that ReplaceScan may be called with. */
  ghost predicate Replaceable(graph: Graph, body: Graph, scan: Scan)
    reads graph, body
  {
    && graph != body && graph.Valid({}) && body.Valid({}) && scan.Fits() && scan.body == body.node
    && AllIn(scan.inputs, graph.nextValue) && AllIn(scan.outputs, graph.nextValue)
    && AllIn(scan.bodyInputs, body.nextValue) && AllIn(scan.bodyOutputs, body.nextValue)
    && Unwritten(graph.producer.Keys, graph.nextValue, scan.outputs[scan.States()..], 0)
    && Unwritten(body.producer.Keys, body.nextValue, scan.bodyInputs[scan.States()..], 0)
    && Distinct(scan.outputs[scan.States()..]) && Distinct(scan.bodyInputs[scan.States()..])
  }

  /** The body of the scan becomes the body of a loop. */
  method MakeBody(body: Graph, bodyInputs: seq<ValueId>, bodyOutputs: seq<ValueId>, states: nat)
    returns (c: Added, ghost b1: map<NodeId, Node>, ghost b2: map<NodeId, Node>, ghost middle: nat)
    requires body.Valid({}) && AllIn(bodyOutputs, body.nextValue) && states <= |bodyInputs| && states <= |bodyOutputs|
    requires Unwritten(body.producer.Keys, body.nextValue, bodyInputs[states..], 0) && Distinct(bodyInputs[states..])
    modifies body
    ensures body.Valid({}) && |c.ins| == |c.inOuts| == |bodyInputs| - states
    ensures |c.accIns| == |c.accOuts| == |bodyOutputs| - states
    ensures Within(old(body.node), b1) && Has(b1, Node(Identity, [c.condIn], [c.condOut]))
    ensures NodesAdded(old(body.node), b1, Node(Identity, [c.condIn], [c.condOut]))
    ensures Family(b1, b2, Both(AtNodes(bodyInputs[states..], c.iter, c.ins), CopyNodes(c.ins, c.inOuts)),
                   2 * (|bodyInputs| - states))
    ensures Family(b2, body.node, InsertNodes(c.accIns, bodyOutputs[states..], c.accOuts), |bodyOutputs| - states)
    ensures var base := old(body.nextValue);
      && c.iter == base && c.condIn == base + 1 && c.condOut == base + 2
      && Alternating(c.ins, c.inOuts, base + 3) && AllIn(c.inOuts, middle)
      && Alternating(c.accIns, c.accOuts, middle) && base + 3 <= middle
  {
    hide DefUse, Written, Family, Within, Has, NodesAdded, Alternating, AllIn, Unwritten, OnlyThese, Both, Distinct;
    hide AtNodes, CopyNodes, InsertNodes;
    var iter := body.AddValue({});
    var condIn := body.AddValue({});
    var condOut := body.AddValue({});
    EmitTo(body, Identity, [condIn], condOut);
    b1 := body.node;
    UnwrittenStill(old(body.producer.Keys), iter, bodyInputs[states..], condOut, body.nextValue);
    var ins, inOuts := ReadScanInputs(body, bodyInputs[states..], iter);
    b2, middle := body.node, body.nextValue;
    LessSlice(bodyOutputs, states, iter, body.nextValue);
    var accIns, accOuts := CollectScanOutputs(body, bodyOutputs[states..]);
    c := Added([], 0, 0, [], [], [], iter, condIn, condOut, ins, inOuts, accIns, accOuts);
  }

  lemma UnwrittenStill(written: set<ValueId>, bound: nat, vs: seq<ValueId>, v: ValueId, bound': nat)
    requires Unwritten(written, bound, vs, 0) && bound <= v && bound <= bound'
    ensures Unwritten(written + {v}, bound', vs, 0)
  {
  }

  lemma LessSlice(vs: seq<ValueId>, k: nat, bound: nat, bound': nat)
    requires AllIn(vs, bound) && k <= |vs| && bound <= bound'
    ensures AllIn(vs[k..], bound') && AllIn(vs, bound')
  {
  }

  /** The nodes outside. */
  method MakeOutside(graph: Graph, inputs: seq<ValueId>, outputs: seq<ValueId>, states: nat, c0: Added)
    returns (c: Added, ghost o1: map<NodeId, Node>, ghost o2: map<NodeId, Node>, ghost o3: map<NodeId, Node>)
    requires graph.Valid({}) && states < |inputs| && states < |outputs| && AllIn(inputs, graph.nextValue)
    requires Unwritten(graph.producer.Keys, graph.nextValue, outputs[states..], 0) && Distinct(outputs[states..])
    modifies graph
    ensures graph.Valid({})
    ensures c == c0.(seqs := c.seqs, trips := c.trips, nothing := c.nothing, empties := c.empties, ends := c.ends,
                     outs := c.outs)
    ensures |c.seqs| == |c.ends| == |inputs| - states && |c.empties| == |c.outs| == |outputs| - states
    ensures Family(old(graph.node), o1, SplitNodes(inputs[states..], c.seqs), |inputs| - states)
    ensures Within(o1, o2) && Has(o2, Node(SequenceLength, [c.seqs[0]], [c.trips]))
    ensures NodesAdded(o1, o2, Node(SequenceLength, [c.seqs[0]], [c.trips]))
    ensures Family(o2, o3, EmptyNodes(c.empties), |outputs| - states)
    ensures Family(o3, graph.node, ConcatNodes(c.outs, outputs[states..]), |outputs| - states)
    ensures Newest(c.seqs, old(graph.nextValue), c.trips) && old(graph.nextValue) <= c.trips < c.nothing
    ensures Newest(c.empties, c.nothing + 1, graph.nextValue) && Newest(c.ends, c.nothing + 1, graph.nextValue)
    ensures Newest(c.outs, c.nothing + 1, graph.nextValue)
    ensures forall e, o :: e in c.empties + c.ends && o in c.outs ==> e < o
  {
    hide DefUse, Written, Below, Family, Within, Has, NodesAdded, AllIn, Unwritten, OnlyThese, Distinct;
    hide SplitNodes, EmptyNodes, ConcatNodes, Newest;
    LessSlice(inputs, states, graph.nextValue, graph.nextValue);
    ghost var base, written := graph.nextValue, graph.producer.Keys;
    var seqs := SplitInputs(graph, inputs[states..]);
    o1 := graph.node;
    NewestBounds(seqs, base, graph.nextValue);
    assert seqs[0] in seqs;
    var trips := Emit(graph, SequenceLength, [seqs[0]]);
    o2 := graph.node;
    var nothing := graph.AddValue({});
    ghost var low := graph.nextValue;
    var empties := EmptySequences(graph, |outputs| - states);
    ghost var mid1 := graph.nextValue;
    o3 := graph.node;
    var ends := NewNulls(graph, |inputs| - states);
    ghost var mid2 := graph.nextValue;
    UnwrittenLow(written, graph.producer.Keys, base, outputs[states..], graph.nextValue);
    var outs := StackOutputs(graph, outputs[states..]);
    c := c0.(seqs := seqs, trips := trips, nothing := nothing, empties := empties, ends := ends, outs := outs);
    NewestWider(empties, low, mid1, low, mid2);
    NewestWider(ends, mid1, mid2, low, mid2);
    NewestBounds(empties, low, mid2);
    NewestBounds(ends, low, mid2);
    NewestBounds(outs, mid2, graph.nextValue);
    NewestWider(empties, low, mid2, low, graph.nextValue);
    NewestWider(ends, low, mid2, low, graph.nextValue);
    NewestWider(outs, mid2, graph.nextValue, low, graph.nextValue);
  }

  lemma NewestBounds(vs: seq<ValueId>, low: nat, high: nat)
    requires Newest(vs, low, high)
    ensures forall v :: v in vs ==> low <= v < high
  {
  }

  lemma NewestWider(vs: seq<ValueId>, low: nat, high: nat, low': nat, high': nat)
    requires Newest(vs, low, high) && low' <= low && high <= high'
    ensures Newest(vs, low', high')
  {
  }

  lemma UnwrittenLow(written: set<ValueId>, written': set<ValueId>, bound: nat, vs: seq<ValueId>, bound': nat)
    requires Unwritten(written, bound, vs, 0) && bound <= bound'
    requires forall v :: v in written' && v < bound ==> v in written
    ensures Unwritten(written', bound', vs, 0)
  {
  }

  /** The values were made in order, each side after the values of before. */
  lemma InOrder(scan: Scan, c: Added, base: nat, high: nat)
    requires Sizes(scan, c) && AllIn(scan.inputs, base) && AllIn(scan.outputs, base)
    requires Newest(c.seqs, base, c.trips) && base <= c.trips < c.nothing
    requires Newest(c.empties, c.nothing + 1, high) && Newest(c.outs, c.nothing + 1, high)
    requires forall e, o :: e in c.empties + c.ends && o in c.outs ==> e < o
    ensures NewOutside(scan, c, base)
  {
    forall o, k | 0 <= o < |c.outs| && 0 <= k < |c.empties| ensures c.empties[k] < c.outs[o] {
      assert c.empties[k] in c.empties && c.empties[k] in c.empties + c.ends && c.outs[o] in c.outs;
    }
  }

  /** None of the values that matter is null. */
  lemma NullsApart(scan: Scan, c: Added, base: nat, high: nat)
    requires Sizes(scan, c) && AllIn(scan.outputs, base) && base <= c.trips < c.nothing
    requires Newest(c.ends, c.nothing + 1, high) && Newest(c.outs, c.nothing + 1, high)
    requires forall e, o :: e in c.empties + c.ends && o in c.outs ==> e < o
    ensures var nulls := {c.nothing} + SetOf(c.ends);
      && c.trips !in nulls && (forall s :: 0 <= s < scan.States() ==> scan.outputs[s] !in nulls)
      && (forall v :: v in c.outs ==> v !in nulls)
  {
    NewestBounds(c.ends, c.nothing + 1, high);
    NewestBounds(c.outs, c.nothing + 1, high);
    forall v | v in c.outs ensures v !in SetOf(c.ends) {
      assert forall e :: e in c.ends ==> e in c.empties + c.ends;
    }
  }

  lemma BelowHere(graph: Graph)
    requires graph.Valid({})
    ensures forall n :: n in graph.node ==> BelowNode(graph.node[n], graph.nextValue)
  {
    hide DefUse, Written;
  }

  /** ReplaceScan: builds the Loop.  The Scan node itself is left to be detached. */
  method ReplaceScan(graph: Graph, body: Graph, ghost scan: Scan, inputs: seq<ValueId>, outputs: seq<ValueId>,
                     bodyInputs: seq<ValueId>, bodyOutputs: seq<ValueId>, numScanInputs: nat)
    returns (loop: LoopNode, ghost c: Added, ghost middle: nat)
    requires scan == Scan(inputs, outputs, body.node, bodyInputs, bodyOutputs, numScanInputs)
    requires Replaceable(graph, body, scan)
    modifies graph, body
    ensures graph.Valid({}) && body.Valid({}) && fresh(loop) && loop.body == body
    ensures Compiled(scan, graph.node, loop.Value(), c)
    ensures NewOutside(scan, c, old(graph.nextValue)) && NewInside(scan, c, old(body.nextValue), middle)
    ensures NothingElse(scan, old(graph.node), graph.node, body.node, c, old(graph.nextValue), old(body.nextValue))
  {
    hide DefUse, Written, Below, Family, Within, Has, NodesAdded, Alternating, AllIn, Unwritten, Distinct, Newest;
    hide AtNodes, CopyNodes, InsertNodes, SplitNodes, EmptyNodes, ConcatNodes, Both, Inside, Outside, OuterNode,
      BodyNode, BelowNode;
    var states := |bodyInputs| - numScanInputs;
    BelowHere(graph);
    BelowHere(body);
    ghost var base := graph.nextValue;
    var c0;
    ghost var b1, b2;
    c0, b1, b2, middle := MakeBody(body, bodyInputs, bodyOutputs, states);
    var c1;
    ghost var o1, o2, o3;
    c1, o1, o2, o3 := MakeOutside(graph, inputs, outputs, states, c0);
    c := c1;
    InsideMade(scan, b1, b2, body.node, c);
    NothingElseInside(scan, b1, b2, body.node, c);
    OutsideMade(scan, old(graph.node), o1, o2, o3, graph.node, c);
    InOrder(scan, c, base, graph.nextValue);
    NullsApart(scan, c, base, graph.nextValue);
    loop := new LoopNode(body,
      [c1.trips, c1.nothing] + inputs[..states] + c1.seqs + c1.empties,
      outputs[..states] + c1.ends + c1.outs,
      [c1.iter, c1.condIn] + bodyInputs[..states] + c1.ins + c1.accIns,
      [c1.condOut] + bodyOutputs[..states] + c1.inOuts + c1.accOuts,
      {c1.nothing} + SetOf(c1.ends));
  }
}
