/** compiler/fusion.cc, second half: cutting a set of nodes out of the graph, and doing so for
    every connected set of fusable nodes. */
module Fusion {
  import opened Ir
  import opened GraphIr
  import opened Renaming
  import opened FusionCandidates
  import opened FusionMeaning
  import opened FusionChoice
  import opened FusionPlan
  import C = ClassifyValues

  // ---- new names for the values on the border ----

  /** The group has been renamed so far; new names start at `bound`. */
  ghost predicate Naming(node: map<NodeId, Node>, nextValue: nat, before: map<NodeId, Node>, group: set<NodeId>,
                         names: Names, bound: nat) {
    && node == RenameGroup(names, before, group)
    && bound <= nextValue
    && (forall v :: v in names ==> v < bound <= names[v] < nextValue)
    && (forall v, w :: v in names && w in names && names[v] == names[w] ==> v == w)
  }

  lemma NamingStart(node: map<NodeId, Node>, group: set<NodeId>, bound: nat)
    ensures Naming(node, bound, node, group, map[], bound)
  {
    forall n | n in node ensures RenameNode(map[], node[n]) == node[n] {
      assert RenameSeq(map[], node[n].inputs) == node[n].inputs && RenameSeq(map[], node[n].outputs) == node[n].outputs;
    }
  }

  lemma NamingNext(node: map<NodeId, Node>, before: map<NodeId, Node>, group: set<NodeId>, names: Names, bound: nat,
                   v: ValueId, w: ValueId)
    requires Naming(node, w, before, group, names, bound) && v !in names && v < bound
    ensures v < w
    ensures Naming(RenameGroup(map[v := w], node, group), w + 1, before, group, names[v := w], bound)
  {
    RenameMore(names, before, group, v, w);
  }

  /** Gives each of `values` a new name inside the group. */
  method NameValues(graph: Graph, group: set<NodeId>, values: set<ValueId>, namesIn: Names,
                    ghost before: map<NodeId, Node>, ghost bound: nat)
    returns (names: Names, ordered: seq<ValueId>)
    requires graph.Valid({}) && NoStale(graph.node, graph.producer) && group <= graph.node.Keys
    requires Naming(graph.node, graph.nextValue, before, group, namesIn, bound)
    requires values !! namesIn.Keys && forall v :: v in values ==> v < bound
    modifies graph`node, graph`users, graph`producer, graph`nextValue
    ensures graph.Valid({}) && NoStale(graph.node, graph.producer) && graph.node.Keys == old(graph.node).Keys
    ensures Naming(graph.node, graph.nextValue, before, group, names, bound)
    ensures names.Keys == namesIn.Keys + values
    ensures SetOf(ordered) == values && Distinct(ordered)
  {
    hide *;
    names, ordered := namesIn, [];
    SetOfNone<ValueId>();
    var rest := values;
    while rest != {}
      modifies graph`node, graph`users, graph`producer, graph`nextValue
      invariant rest <= values && SetOf(ordered) == values - rest && Distinct(ordered)
      invariant graph.Valid({}) && NoStale(graph.node, graph.producer) && graph.node.Keys == old(graph.node).Keys
      invariant names.Keys == namesIn.Keys + (values - rest)
      invariant Naming(graph.node, graph.nextValue, before, group, names, bound)
    {
      var v :| v in rest;
      ghost var old' := graph.node;
      rest := rest - {v};
      NamingNext(graph.node, before, group, names, bound, v, graph.nextValue);
      GraphIsBelow(graph);
      NotListed(ordered, v);
      var w := graph.AddValue({});
      ReplaceValue(graph, group, v, w);
      names := names[v := w];
      SetOfNext(ordered, v);
      ordered := ordered + [v];
    }
  }

  lemma GraphIsBelow(graph: Graph)
    requires graph.Valid({})
    ensures Below(graph.node, graph.producer, graph.nextNode, graph.nextValue)
  {
    hide DefUse, Written, Below;
  }

  lemma SetOfNone<T>()
    ensures SetOf<T>([]) == {} && Distinct<T>([])
  {
  }

  lemma NotListed<T>(s: seq<T>, v: T)
    requires v !in SetOf(s)
    ensures v !in s
  {
  }

  lemma SetOfNext<T>(s: seq<T>, v: T)
    ensures SetOf(s + [v]) == SetOf(s) + {v} && (s + [v])[..|s|] == s
    ensures Distinct(s) && v !in s ==> Distinct(s + [v])
  {
  }

  lemma NamesAreFresh(before: map<NodeId, Node>, producer: map<ValueId, NodeId>, nextNode: nat, names: Names,
                      bound: nat)
    requires Below(before, producer, nextNode, bound)
    requires forall v :: v in names ==> v < bound <= names[v]
    requires forall v, w :: v in names && w in names && names[v] == names[w] ==> v == w
    ensures FreshNames(before, names)
  {
    assert forall n :: n in before ==> BelowNode(before[n], bound);
  }

  function Without(s: seq<nat>, drop: set<nat>): (r: seq<nat>)
    ensures SetOf(r) == SetOf(s) - drop
    ensures Distinct(s) ==> Distinct(r)
  {
    if s == [] then []
    else
      var last := |s| - 1;
      var init := Without(s[..last], drop);
      assert s == s[..last] + [s[last]];
      SetOfNext(s[..last], s[last]);
      SetOfNext(init, s[last]);
      assert forall x :: x in init <==> x in SetOf(init);
      assert forall x :: x in s[..last] <==> x in SetOf(s[..last]);
      if s[last] in drop then init else init + [s[last]]
  }

  method SeqOf(s: set<NodeId>) returns (r: seq<NodeId>)
    ensures SetOf(r) == s && Distinct(r)
  {
    r := [];
    var rest := s;
    while rest != {}
      invariant rest <= s && SetOf(r) == s - rest && Distinct(r)
    {
      var n :| n in rest;
      rest := rest - {n};
      assert n !in r by { assert n !in SetOf(r); }
      r := r + [n];
      SetOfNext(r[..|r| - 1], n);
    }
  }

  lemma SameDefUse(node: map<NodeId, Node>, users: map<ValueId, seq<NodeId>>, producer: map<ValueId, NodeId>)
    requires DefUse(node, users)
    ensures Snapshot(node, users, producer, {}).DefUse()
  {
    var a, b := Snapshot(node, users, map[], {}), Snapshot(node, users, producer, {});
    forall n: NodeId, v: ValueId ensures multiset(b.Users(v))[n] == b.Reads(n, v) {
      assert multiset(a.Users(v))[n] == a.Reads(n, v);
    }
  }

  lemma WritersUnique(node: map<NodeId, Node>, producer: map<ValueId, NodeId>)
    requires Written(node, producer, {})
    ensures UniqueWriter(node)
  {
    forall a, b, v | a in node && b in node && v in node[a].outputs && v in node[b].outputs ensures a == b {
      var i :| 0 <= i < |node[a].outputs| && node[a].outputs[i] == v;
      var j :| 0 <= j < |node[b].outputs| && node[b].outputs[j] == v;
    }
  }

  // ---- invariant ----

  ghost predicate GroupsApart(s: Fused) {
    forall f :: f in s.subgraph ==>
      f in s.outer && f in s.node && s.node[f].op == FusionGroup && s.subgraph[f].nodes !! s.outer
        && s.subgraph[f].nodes <= s.node.Keys
  }

  ghost predicate WellFormed(s: Fused) {
    && s.outer <= s.node.Keys && GroupsApart(s) && NoCrossing(s) && ConstantsAreSources(s.node)
    && InitializersUnwritten(s)
    && exists rank :: Ranked(s.node, rank)
  }

  lemma FuseKeepsForm(s: Fused, t: Step, beyond: set<NodeId>)
    requires WellFormed(s) && Applicable(s, t) && Separated(s.node, t.group, beyond)
    ensures WellFormed(Fuse(s, t))
  {
    hide Applicable, RenameGroup, Feeds, Separated, Ranked;
    FuseKeepsRank(s, t, beyond);
    FuseKeepsCrossing(s, t);
    FuseKeepsGroups(s, t);
    FuseKeepsOutputs(s, t);
  }

  lemma FuseKeepsRank(s: Fused, t: Step, beyond: set<NodeId>)
    requires WellFormed(s) && Applicable(s, t) && Separated(s.node, t.group, beyond)
    ensures t.taken.Keys <= t.names.Keys && exists rank :: Ranked(Fuse(s, t).node, rank)
  {
    hide Applicable, RenameGroup, Feeds, Separated, Fuse, GroupsApart, NoCrossing, ConstantsAreSources;
    var rank :| Ranked(s.node, rank);
    StepNames(s, t);
    var top := TopRank(s.node.Keys, rank);
    FuseIsAcyclic(s, t, beyond, rank, top);
  }

  lemma TopRank(nodes: set<NodeId>, rank: map<NodeId, nat>) returns (top: nat)
    requires nodes <= rank.Keys
    ensures forall n :: n in nodes ==> rank[n] < top
  {
    if nodes == {} {
      top := 0;
    } else {
      var n :| n in nodes;
      top := TopRank(nodes - {n}, rank);
      if top <= rank[n] { top := rank[n] + 1; }
    }
  }

  lemma FuseKeepsCrossing(s: Fused, t: Step)
    requires WellFormed(s) && Applicable(s, t)
    ensures t.taken.Keys <= t.names.Keys && NoCrossing(Fuse(s, t))
  {
    hide Applicable, Fuse, Feeds, GroupsApart, ConstantsAreSources, Ranked, FreshNames;
    ApplicableParts(s, t);
    FuseParts(s, t);
    forall a, b | Feeds(Fuse(s, t).node, a, b) ensures a in Fuse(s, t).outer <==> b in Fuse(s, t).outer {
      if a == t.fused {
        var k := FeedsFromGroup(s, t, b);
      } else if b == t.fused {
        var k := FeedsIntoGroup(s, t, a);
      } else {
        FeedsOld(s, t, a, b);
      }
    }
  }

  lemma FuseKeepsGroups(s: Fused, t: Step)
    requires WellFormed(s) && Applicable(s, t)
    ensures t.taken.Keys <= t.names.Keys && GroupsApart(Fuse(s, t)) && Fuse(s, t).outer <= Fuse(s, t).node.Keys
  {
    hide Applicable, Fuse, Feeds, NoCrossing, ConstantsAreSources, Ranked, FreshNames;
    ApplicableParts(s, t);
    FuseParts(s, t);
  }

  lemma FuseKeepsOutputs(s: Fused, t: Step)
    requires WellFormed(s) && Applicable(s, t)
    ensures t.taken.Keys <= t.names.Keys && ConstantsAreSources(Fuse(s, t).node)
    ensures forall v, n :: v in Fuse(s, t).initializer && n in Fuse(s, t).node ==> v !in Fuse(s, t).node[n].outputs
  {
    hide Applicable, Fuse, Feeds, NoCrossing, Ranked, GroupsApart, FreshNames;
    ApplicableParts(s, t);
    FuseParts(s, t);
    forall v, n | v in s.initializer && n in Fuse(s, t).node ensures v !in Fuse(s, t).node[n].outputs {
      if n == t.fused {
        if v in t.outputSeq { var k := GroupOutput(s, t, v); }
      } else if v in Fuse(s, t).node[n].outputs {
        var y := WrittenName(s, t, n, v);
      }
    }
  }

  // ---- CreateFusionGroup ----

  lemma BorderBelow(node: map<NodeId, Node>, producer: map<ValueId, NodeId>, nextNode: nat, bound: nat,
                    results: set<ValueId>, group: set<NodeId>, inputs: set<ValueId>, outputs: set<ValueId>,
                    temps: set<ValueId>)
    requires Below(node, producer, nextNode, bound) && C.Classified(node, results, group, inputs, outputs, temps)
    ensures inputs !! outputs && forall v :: v in inputs || v in outputs ==> v < bound
  {
    forall v | v in inputs || v in outputs ensures v < bound {
      var n :| n in node && (v in node[n].inputs || v in node[n].outputs);
      assert BelowNode(node[n], bound);
    }
  }

  /** After the renaming nobody writes the outputs any more. */
  lemma OutputsFree(before: map<NodeId, Node>, group: set<NodeId>, names: Names, outputs: set<ValueId>,
                    results: set<ValueId>, inputs: set<ValueId>, temps: set<ValueId>, node: map<NodeId, Node>,
                    producer: map<ValueId, NodeId>)
    requires UniqueWriter(before) && FreshNames(before, names) && outputs <= names.Keys
    requires C.Classified(before, results, group, inputs, outputs, temps)
    requires node == RenameGroup(names, before, group) && Written(node, producer, {})
    ensures forall v :: v in outputs ==> Free(node, producer, {}, v)
  {
    forall v | v in outputs ensures Free(node, producer, {}, v) {
      if v in producer && producer[v] in node {
        var n := producer[v];
        var k :| k in group && k in before && v in before[k].outputs;
        if n in group {
          RenamedMember(names, before[n].outputs, v);
          var y :| y in before[n].outputs && NameOf(names, y) == v;
          assert Occurs(before, y);
          NamesAreNew(before, names, y);
        }
      }
    }
  }

  method InnerValues(ghost t: Step, ghost before: map<NodeId, Node>, names: Names, taken: map<ValueId, Data>)
    returns (inner: map<ValueId, Data>)
    requires t.names == names && t.taken == taken && taken.Keys <= names.Keys && FreshNames(before, names)
    ensures inner == InnerInitializers(t)
  {
    hide InnerInitializers, Unname;
    inner := map[];
    var rest := taken.Keys;
    while rest != {}
      invariant rest <= taken.Keys
      invariant forall w :: w in inner <==> exists v :: v in taken.Keys - rest && names[v] == w
      invariant forall v :: v in taken.Keys - rest ==> inner[names[v]] == taken[v]
    {
      var v :| v in rest;
      rest := rest - {v};
      inner := inner[names[v] := taken[v]];
    }
    InnerIs(t, before, inner);
  }

  lemma InnerIs(t: Step, before: map<NodeId, Node>, inner: map<ValueId, Data>)
    requires t.taken.Keys <= t.names.Keys && FreshNames(before, t.names)
    requires forall w :: w in inner <==> exists v :: v in t.taken && t.names[v] == w
    requires forall v :: v in t.taken ==> inner[t.names[v]] == t.taken[v]
    ensures inner == InnerInitializers(t)
  {
    forall w
      ensures (w in inner <==> w in InnerInitializers(t)) && (w in inner ==> inner[w] == InnerInitializers(t)[w])
    {
      if v :| v in t.taken && t.names[v] == w { UnnameName(before, t.names, v); }
    }
  }

  lemma StepApplies(s: Fused, producer: map<ValueId, NodeId>, nextNode: nat, bound: nat, t: Step)
    requires WellFormed(s) && Written(s.node, producer, {}) && Below(s.node, producer, nextNode, bound)
    requires t.group <= s.outer && t.group !! s.subgraph.Keys && t.fused !in s.node
    requires C.Classified(s.node, t.results, t.group, t.inputs, t.outputs, t.temps)
    requires t.names.Keys == t.inputs + t.outputs && forall v :: v in t.names ==> v < bound <= t.names[v]
    requires forall v, w :: v in t.names && w in t.names && t.names[v] == t.names[w] ==> v == w
    requires SetOf(t.inputSeq) == t.inputs - t.taken.Keys && SetOf(t.outputSeq) == t.outputs
    requires t.taken.Keys <= t.inputs
    requires forall v :: v in t.taken ==> v in s.initializer && s.initializer[v] == t.taken[v]
    requires forall v :: v in s.initializer ==> v < bound
    ensures Applicable(s, t)
  {
    hide Written, Below, FreshNames, Feeds, Ranked, NoCrossing, ConstantsAreSources;
    WritersUnique(s.node, producer);
    NamesAreFresh(s.node, producer, nextNode, t.names, bound);
    forall v | v in s.initializer ensures !C.WrittenBy(s.node, t.group, v) {}
  }

  lemma OuterAttached(s: Fused)
    requires WellFormed(s)
    ensures s.outer <= s.node.Keys
  {
  }

  lemma NamingFacts(node: map<NodeId, Node>, nextValue: nat, before: map<NodeId, Node>, group: set<NodeId>,
                    names: Names, bound: nat, producer: map<ValueId, NodeId>, nextNode: nat)
    requires Naming(node, nextValue, before, group, names, bound) && Below(before, producer, nextNode, bound)
    ensures node == RenameGroup(names, before, group) && bound <= nextValue && FreshNames(before, names)
    ensures forall v :: v in names ==> v < bound <= names[v]
    ensures forall v, w :: v in names && w in names && names[v] == names[w] ==> v == w
  {
    NamesAreFresh(before, producer, nextNode, names, bound);
  }

  lemma InterfaceBelow(inputs: set<ValueId>, outputs: set<ValueId>, inputSeq: seq<ValueId>, outs: seq<ValueId>,
                       bound: nat, nextValue: nat)
    requires SetOf(inputSeq) <= inputs && SetOf(outs) == outputs && bound <= nextValue
    requires forall v :: v in inputs || v in outputs ==> v < bound
    ensures BelowNode(Node(FusionGroup, inputSeq, outs), nextValue)
    ensures forall v :: v in outs <==> v in outputs
  {
    assert forall v :: v in inputSeq ==> v in SetOf(inputSeq);
    assert forall v :: v in outs <==> v in SetOf(outs);
  }

  lemma NoStaleAdded(node: map<NodeId, Node>, producer: map<ValueId, NodeId>, node': map<NodeId, Node>,
                     producer': map<ValueId, NodeId>, n: NodeId, outs: seq<ValueId>)
    requires NoStale(node, producer) && node'.Keys == node.Keys + {n}
    requires forall v :: v in producer' <==> v in producer || v in outs
    requires forall v :: v in producer' ==> producer'[v] == if v in outs then n else producer[v]
    ensures NoStale(node', producer')
  {
  }

  lemma FuseIs(s: Fused, t: Step, s': Fused)
    requires t.taken.Keys <= t.names.Keys && t.fused !in t.group
    requires s'.node == RenameGroup(t.names, s.node, t.group)[t.fused := GroupNode(t)]
    requires s'.outer == s.outer + {t.fused} - t.group
    requires s'.subgraph == s.subgraph[t.fused :=
      SubGraph(t.group, RenameSeq(t.names, t.inputSeq), RenameSeq(t.names, t.outputSeq), InnerInitializers(t))]
    requires s'.initializer == s.initializer
    ensures s' == Fuse(s, t)
  {
    assert s'.outer == s.outer - t.group + {t.fused};
  }

  lemma WritersOf(node: map<NodeId, Node>, producer: map<ValueId, NodeId>, n: NodeId, m: NodeId)
    requires Written(node, producer, {}) && NoStale(node, producer) && n in node
    ensures Feeds(node, m, n) <==>
      exists k :: 0 <= k < |node[n].inputs| && node[n].inputs[k] in producer && producer[node[n].inputs[k]] == m
  {
    if Feeds(node, m, n) {
      var v :| v in node[m].outputs && v in node[n].inputs;
      var i :| 0 <= i < |node[m].outputs| && node[m].outputs[i] == v;
      var k :| 0 <= k < |node[n].inputs| && node[n].inputs[k] == v;
    }
    if k :| 0 <= k < |node[n].inputs| && node[n].inputs[k] in producer && producer[node[n].inputs[k]] == m {
      assert node[n].inputs[k] in node[m].outputs && node[n].inputs[k] in node[n].inputs;
    }
  }

  // ---- the connected candidates ----

  /** Half way through the search: candidates and queue stay in the component of the base. */
  ghost predicate Joining(node: map<NodeId, Node>, rule: Rule, base: NodeId, cands: set<NodeId>, q: seq<NodeId>) {
    && (base in cands || base in q)
    && (forall n :: n in cands || n in q ==> n in ComponentOf(node, rule, base))
    && (forall a, b :: a in cands && Near(node, a, b) && Partner(node, rule, base, b) ==> b in cands || b in q)
  }

  lemma StartJoined(node: map<NodeId, Node>, rule: Rule, base: NodeId)
    requires base in node
    ensures Joining(node, rule, base, {}, [base])
  {
  }

  lemma JoiningSkip(node: map<NodeId, Node>, rule: Rule, base: NodeId, cands: set<NodeId>, q: seq<NodeId>, n: NodeId)
    requires Joining(node, rule, base, cands, q + [n]) && n in cands
    ensures Joining(node, rule, base, cands, q)
  {
    assert forall m :: m in q ==> m in q + [n];
  }

  lemma JoiningNext(node: map<NodeId, Node>, rule: Rule, base: NodeId, cands: set<NodeId>, q: seq<NodeId>, n: NodeId,
                    near: seq<NodeId>, next: seq<NodeId>)
    requires Joining(node, rule, base, cands, q + [n])
    requires forall m :: m in near <==> Feeds(node, m, n) || Feeds(node, n, m)
    requires forall m :: m in near ==> m in node
    requires forall m :: m in next <==> m in near && rule.isFusable(node[m]) && rule.isGrad(m) == rule.isGrad(base)
    ensures Joining(node, rule, base, cands + {n}, q + next)
  {
    hide ComponentOf;
    assert (q + [n])[|q|] == n;
    assert forall m :: m in q ==> m in q + [n];
    assert forall m :: m in q + [n] ==> m in q || m == n;
    forall m | m in next ensures m in ComponentOf(node, rule, base) {
      StaysInComponent(node, rule, base, n, m);
    }
  }

  lemma JoiningDone(node: map<NodeId, Node>, rule: Rule, base: NodeId, cands: set<NodeId>)
    requires Joining(node, rule, base, cands, [])
    ensures cands == ComponentOf(node, rule, base)
  {
    hide ComponentOf, Near;
    assert Joined(node, rule, base, cands);
  }

  lemma JoiningInside(node: map<NodeId, Node>, rule: Rule, base: NodeId, cands: set<NodeId>, q: seq<NodeId>, n: NodeId)
    requires Joining(node, rule, base, cands, q) && (n in q || n in cands)
    ensures n in ComponentOf(node, rule, base) && n in node
  {
  }

  /** The search for constants that are read selects what `Selection` says. */
  lemma SelectedIs(node: map<NodeId, Node>, users: map<ValueId, seq<NodeId>>, producer: map<ValueId, NodeId>,
                   cands: set<NodeId>, rest: set<NodeId>, kept: set<NodeId>)
    requires Snapshot(node, users, producer, {}).DefUse() && ConstantsAreSources(node) && cands <= node.Keys
    requires rest == cands - BehindOf(node, cands) && kept <= rest
    requires forall n :: n in rest ==> (n in kept <==>
      !node[n].op.Constant? ||
      exists u :: u in Snapshot(node, users, producer, {}).Users(node[n].outputs[0]) && u in rest)
    ensures kept == Selection(node, cands)
  {
    hide BehindOf;
    var g := Snapshot(node, users, producer, {});
    forall n | n in rest ensures n in kept <==> n in Selection(node, cands) {
      if node[n].op.Constant? {
        forall u ensures u in g.Users(node[n].outputs[0]) <==> Feeds(node, n, u) {
          UserReads(g, node[n].outputs[0], u);
        }
      }
    }
  }

  ghost predicate Untouchable(node: map<NodeId, Node>, nextValue: nat, results: set<ValueId>, keep: set<ValueId>) {
    forall v :: v in keep ==> v < nextValue && (v in results || forall n :: n in node ==> v !in node[n].outputs)
  }

  lemma UntouchableLater(node: map<NodeId, Node>, bound: nat, nextValue: nat, results: set<ValueId>, keep: set<ValueId>)
    requires Untouchable(node, bound, results, keep) && bound <= nextValue
    ensures Untouchable(node, nextValue, results, keep)
  {
  }

  lemma FuseKeepsUntouchable(s: Fused, t: Step, bound: nat, nextValue: nat, keep: set<ValueId>)
    requires Applicable(s, t) && Untouchable(s.node, bound, t.results, keep) && bound <= nextValue
    requires forall v :: v in t.names ==> bound <= t.names[v]
    ensures keep !! t.temps && Untouchable(Fuse(s, t).node, nextValue, t.results, keep)
  {
    hide Fuse, Applicable, FreshNames, C.Classified;
    ApplicableParts(s, t);
    FuseParts(s, t);
    forall v, n | v in keep && v !in t.results && n in Fuse(s, t).node ensures v !in Fuse(s, t).node[n].outputs {
      if n == t.fused {
        if v in t.outputSeq { var k := GroupOutput(s, t, v); }
      } else if v in Fuse(s, t).node[n].outputs {
        var y := WrittenName(s, t, n, v);
      }
    }
    TempsAreWritten(s, t);
  }

  lemma TempsAreWritten(s: Fused, t: Step)
    requires Applicable(s, t)
    ensures forall v :: v in t.temps ==> v !in t.results && exists n :: n in s.node && v in s.node[n].outputs
  {
  }

  lemma FuseIsEquivalentForAll(s: Fused, t: Step, keep: set<ValueId>)
    requires Applicable(s, t) && keep !! t.temps
    ensures t.taken.Keys <= t.names.Keys && forall kernels: Kernels :: Equivalent(kernels, s, Fuse(s, t), keep)
  {
    hide Fuse, Applicable, Equivalent;
    ApplicableParts(s, t);
    forall kernels: Kernels ensures Equivalent(kernels, s, Fuse(s, t), keep) {
      FuseIsEquivalent(kernels, s, t, keep);
    }
  }

  lemma UnchangedIsEquivalent(s: Fused, keep: set<ValueId>)
    ensures forall kernels: Kernels :: Equivalent(kernels, s, s, keep)
  {
    forall kernels: Kernels ensures Equivalent(kernels, s, s, keep) { EquivalentSelf(kernels, s, keep); }
  }

  lemma EquivalentThrough(s: Fused, t: Fused, u: Fused, keep: set<ValueId>)
    requires forall kernels: Kernels :: Equivalent(kernels, s, t, keep)
    requires forall kernels: Kernels :: Equivalent(kernels, t, u, keep)
    ensures forall kernels: Kernels :: Equivalent(kernels, s, u, keep)
  {
    forall kernels: Kernels ensures Equivalent(kernels, s, u, keep) {
      assert Equivalent(kernels, s, t, keep) && Equivalent(kernels, t, u, keep);
      MatchedTrans(kernels, s, t, u, keep);
      MatchedTrans(kernels, u, t, s, keep);
    }
  }

  class FusedGraph {
    const graph: Graph
    const results: set<ValueId>               // values of kind kOutput
    const initializer: map<ValueId, Data>
    var subgraph: map<NodeId, SubGraph>
    var fusionGroup: map<NodeId, nat>

    constructor (graph: Graph, results: set<ValueId>, initializer: map<ValueId, Data>)
      ensures this.graph == graph && this.results == results && this.initializer == initializer
      ensures subgraph == map[] && fusionGroup == map[]
    {
      this.graph, this.results, this.initializer := graph, results, initializer;
      subgraph, fusionGroup := map[], map[];
    }

    ghost function State(): Fused
      reads this`subgraph, graph
    {
      Fused(graph.node, SetOf(graph.nodes), subgraph, initializer)
    }

    ghost predicate Ok()
      reads this`subgraph, graph
    {
      && graph.Valid({}) && NoStale(graph.node, graph.producer)
      && WellFormed(State())
      && (forall v :: v in initializer ==> v < graph.nextValue)
    }

    lemma Attached()
      requires Ok()
      ensures State().node == graph.node && State().outer == SetOf(graph.nodes) && State().subgraph == subgraph
      ensures State().outer <= State().node.Keys && GroupsApart(State())
      ensures NoCrossing(State()) && ConstantsAreSources(State().node) && InitializersUnwritten(State())
      ensures UniqueWriter(State().node) && State().initializer == initializer
    {
      WritersUnique(State().node, graph.producer);
    }

    /** Moves `nodes` into the subgraph of one new node, unless nothing goes in or out. */
    method CreateFusionGroup(nodes: set<NodeId>, canFuseInitializers: bool, ghost beyond: set<NodeId>)
      returns (created: bool, fused: NodeId, ghost t: Step)
      requires Ok() && nodes <= SetOf(graph.nodes) && nodes !! subgraph.Keys
      requires Separated(graph.node, nodes, beyond)
      modifies this`subgraph, graph
      ensures Ok() && graph.nextValue >= old(graph.nextValue)
      ensures !created ==> State() == old(State())
      ensures created ==> Applicable(old(State()), t) && State() == Fuse(old(State()), t)
      ensures created ==> forall v :: v in t.names ==> old(graph.nextValue) <= t.names[v]
      ensures t.group == nodes && t.results == results
      ensures C.Classified(old(graph.node), results, nodes, t.inputs, t.outputs, t.temps)
      ensures created <==> t.inputs != {} && t.outputs != {}
      ensures created ==> fused == t.fused
      // The new node reads all that enters the group; initializers go inside only if asked for.
      ensures created ==> TakesAsAsked(old(State()), t, canFuseInitializers)
      ensures created ==> fused in subgraph && GroupFed(old(State()), State(), fused, canFuseInitializers)
    {
      hide DefUse, Written, Below, WellFormed, Applicable, Fuse, C.Classified, NoStale, Separated, TakesAsAsked,
        GroupFed;
      var order := SeqOf(nodes);
      SameDefUse(graph.node, graph.users, graph.producer);
      OuterAttached(State());
      var inputs, outputs, temps :=
        C.ClassifyValues(Snapshot(graph.node, graph.users, graph.producer, {}), results, order);
      created, fused := inputs != {} && outputs != {}, 0;
      if created {
        ghost var s := State();
        fused, t := CutOut(nodes, inputs, outputs, temps, canFuseInitializers, beyond);
        ApplicableParts(s, t);
        NewGroupFed(s, s, t, State(), canFuseInitializers);
      } else {
        t := Step(results, nodes, inputs, outputs, temps, map[], 0, [], [], map[]);
      }
    }

    method CutOut(nodes: set<NodeId>, inputs: set<ValueId>, outputs: set<ValueId>, ghost temps: set<ValueId>,
                  canFuseInitializers: bool, ghost beyond: set<NodeId>)
      returns (fused: NodeId, ghost t: Step)
      requires Ok() && nodes <= SetOf(graph.nodes) && nodes !! subgraph.Keys
      requires Separated(graph.node, nodes, beyond)
      requires C.Classified(graph.node, results, nodes, inputs, outputs, temps)
      modifies this`subgraph, graph
      ensures Ok() && graph.nextValue >= old(graph.nextValue)
      ensures Applicable(old(State()), t) && State() == Fuse(old(State()), t)
      ensures forall v :: v in t.names ==> old(graph.nextValue) <= t.names[v]
      ensures fused == t.fused && t.group == nodes && t.results == results && t.inputs == inputs && t.outputs == outputs
      ensures t.temps == temps && TakesAsAsked(old(State()), t, canFuseInitializers)
    {
      hide DefUse, Written, Below, WellFormed, Applicable, Fuse, RenameGroup, C.Classified, NoStale, Separated;
      hide FreshNames, SetOf, InnerInitializers, Free, BelowNode, RenameSeq, Without;
      ghost var listed := graph.nodes;
      ghost var s, before, bound := State(), graph.node, graph.nextValue;
      ghost var producer, nextNode := graph.producer, graph.nextNode;
      OuterAttached(s);
      var names, inputSeq, outs, taken := NameBorder(nodes, inputs, outputs, temps, canFuseInitializers);
      ghost var named, written := graph.node, graph.producer;
      var f := graph.AddNode(FusionGroup, inputSeq, outs, {});
      fused := f;
      NoStaleAdded(named, written, graph.node, graph.producer, f, outs);
      t := Step(results, nodes, inputs, outputs, temps, names, f, inputSeq, outs, taken);
      var innerValues := InnerValues(t, before, names, taken);
      SetOfNext(listed, f);
      graph.nodes := Without(graph.nodes, nodes);
      subgraph := subgraph[f := SubGraph(nodes, RenameSeq(names, inputSeq), RenameSeq(names, outs), innerValues)];
      StepApplies(s, producer, nextNode, bound, t);
      FuseKeepsForm(s, t, beyond);
      FuseIs(s, t, State());
    }

    /** Renames the border inside the group, and picks the inputs of the new node. */
    method NameBorder(nodes: set<NodeId>, inputs: set<ValueId>, outputs: set<ValueId>, ghost temps: set<ValueId>,
                      canFuseInitializers: bool)
      returns (names: Names, inputSeq: seq<ValueId>, outs: seq<ValueId>, taken: map<ValueId, Data>)
      requires graph.Valid({}) && NoStale(graph.node, graph.producer) && nodes <= graph.node.Keys
      requires C.Classified(graph.node, results, nodes, inputs, outputs, temps)
      modifies graph`node, graph`users, graph`producer, graph`nextValue
      ensures graph.Valid({}) && NoStale(graph.node, graph.producer) && graph.nextValue >= old(graph.nextValue)
      ensures graph.node == RenameGroup(names, old(graph.node), nodes) && graph.node.Keys == old(graph.node).Keys
      ensures names.Keys == inputs + outputs && FreshNames(old(graph.node), names)
      ensures forall v :: v in names ==> v < old(graph.nextValue) <= names[v]
      ensures forall v, w :: v in names && w in names && names[v] == names[w] ==> v == w
      ensures taken.Keys <= inputs && forall v :: v in taken ==> v in initializer && initializer[v] == taken[v]
      ensures forall v :: v in taken <==> canFuseInitializers && v in inputs && v in initializer
      ensures SetOf(inputSeq) == inputs - taken.Keys && SetOf(outs) == outputs && Distinct(outs)
      ensures BelowNode(Node(FusionGroup, inputSeq, outs), graph.nextValue)
      ensures forall v :: v in outs ==> Free(graph.node, graph.producer, {}, v)
    {
      hide DefUse, Written, Below, Naming, RenameGroup, C.Classified, NoStale, FreshNames;
      ghost var before, bound, producer, nextNode := graph.node, graph.nextValue, graph.producer, graph.nextNode;
      BorderBelow(before, producer, nextNode, bound, results, nodes, inputs, outputs, temps);
      NamingStart(graph.node, nodes, bound);
      var ins: seq<ValueId>;
      names, ins := NameValues(graph, nodes, inputs, map[], before, bound);
      names, outs := NameValues(graph, nodes, outputs, names, before, bound);
      taken := if canFuseInitializers then map v | v in inputs && v in initializer :: initializer[v] else map[];
      inputSeq := Without(ins, taken.Keys);
      NamingFacts(graph.node, graph.nextValue, before, nodes, names, bound, producer, nextNode);
      WritersUnique(before, producer);
      OutputsFree(before, nodes, names, outputs, results, inputs, temps, graph.node, graph.producer);
      InterfaceBelow(inputs, outputs, inputSeq, outs, bound, graph.nextValue);
    }

    /** Nodes that write what `n` reads or read what `n` writes. */
    method Neighbours(n: NodeId) returns (q: seq<NodeId>)
      requires Ok() && n in SetOf(graph.nodes)
      ensures forall m :: m in q <==> Feeds(graph.node, m, n) || Feeds(graph.node, n, m)
      ensures forall m :: m in q ==> m in SetOf(graph.nodes)
    {
      hide DefUse, Below, Ranked, ConstantsAreSources, GroupsApart;
      SameDefUse(graph.node, graph.users, graph.producer);
      q := Readers(Snapshot(graph.node, graph.users, graph.producer, {}), n);
      var inputs, i := graph.node[n].inputs, 0;
      ghost var readers := q;
      while i < |inputs|
        invariant 0 <= i <= |inputs|
        invariant forall m :: m in q <==>
          m in readers || exists k :: 0 <= k < i && inputs[k] in graph.producer && graph.producer[inputs[k]] == m
      {
        if inputs[i] in graph.producer { q := q + [graph.producer[inputs[i]]]; }
        i := i + 1;
      }
      forall m ensures m in q <==> Feeds(graph.node, m, n) || Feeds(graph.node, n, m) {
        WritersOf(graph.node, graph.producer, n, m);
      }
    }

    /** The nodes to fuse with `base`, by a search over fusable neighbours of the same phase.
        `ok` is false when the search meets a node that has been given a group already; the
        program aborts then. */
    method Connected(base: NodeId, rule: Rule) returns (ok: bool, cands: set<NodeId>)
      requires Ok() && Candidate(State(), rule, base)
      ensures ok <==> Unmarked(fusionGroup, ComponentOf(graph.node, rule, base))
      ensures ok ==> cands == ComponentOf(graph.node, rule, base)
    {
      hide *;
      Attached();
      ComponentOuter(State(), rule, base);
      UnmarkedNone(fusionGroup);
      ghost var all := ComponentOf(graph.node, rule, base);
      cands := {};
      var q := [base];
      ok := true;
      StartJoined(graph.node, rule, base);
      while q != []
        invariant cands <= all && Unmarked(fusionGroup, cands)
        invariant Joining(graph.node, rule, base, cands, q)
        decreases all - cands, |q|
      {
        var n := q[|q| - 1];
        assert q == q[..|q| - 1] + [n];
        JoiningInside(graph.node, rule, base, cands, q, n);
        assert n in all;
        MarkIs(fusionGroup);
        if n in fusionGroup && fusionGroup[n] != 0 {
          ok := false;
          MarkedMember(fusionGroup, all, n);
          return;
        }
        q := q[..|q| - 1];
        if n in cands {
          JoiningSkip(graph.node, rule, base, cands, q, n);
        } else {
          var near := Neighbours(n);
          var next := Fusable(near, base, rule);
          JoiningNext(graph.node, rule, base, cands, q, n, near, next);
          UnmarkedNext(fusionGroup, cands, n);
          cands := cands + {n};
          q := q + next;
        }
      }
      JoiningDone(graph.node, rule, base, cands);
    }

    method Fusable(near: seq<NodeId>, base: NodeId, rule: Rule) returns (next: seq<NodeId>)
      requires forall n :: n in near ==> n in graph.node
      ensures forall n ::
        n in next <==> n in near && rule.isFusable(graph.node[n]) && rule.isGrad(n) == rule.isGrad(base)
    {
      next := [];
      var i := 0;
      while i < |near|
        invariant 0 <= i <= |near|
        invariant forall n :: n in next <==>
          n in near[..i] && rule.isFusable(graph.node[n]) && rule.isGrad(n) == rule.isGrad(base)
      {
        if rule.isFusable(graph.node[near[i]]) && rule.isGrad(near[i]) == rule.isGrad(base) {
          next := next + [near[i]];
        }
        i := i + 1;
      }
      assert near[..i] == near;
    }

    /** Values whose contents a fusion must not change: graph outputs, and what no node writes. */
    ghost predicate Keeps(keep: set<ValueId>)
      reads graph
    {
      Untouchable(graph.node, graph.nextValue, results, keep)
    }

    /** The component of `base`, shrunk until it can be contracted; `enough` tells whether what
        is left holds `minFuseOps` operations that cost something. */
    method Select(base: NodeId, rule: Rule)
      returns (ok: bool, enough: bool, cands: set<NodeId>, ghost beyond: set<NodeId>)
      requires Ok() && Candidate(State(), rule, base) && GroupsNotFusable(rule)
      ensures ok <==> Unmarked(fusionGroup, ComponentOf(graph.node, rule, base))
      ensures ok ==> cands == Selection(graph.node, ComponentOf(graph.node, rule, base))
      ensures ok ==> cands <= SetOf(graph.nodes) && cands !! subgraph.Keys && Separated(graph.node, cands, beyond)
      ensures ok ==> (enough <==> |Calculating(graph.node, cands)| >= rule.minFuseOps)
    {
      hide DefUse, Written, Below, Ranked, Separated, Behind, BehindOf, ComponentOf, Selection, Near, Joined,
        InComponent;
      SameDefUse(graph.node, graph.users, graph.producer);
      ComponentOuter(State(), rule, base);
      var g := Snapshot(graph.node, graph.users, graph.producer, {});
      enough, beyond := false, {};
      ok, cands := Connected(base, rule);
      if ok {
        ghost var whole := cands;
        cands, beyond := RejectCyclicNodes(g, cands);
        ghost var rest := cands;
        cands := RejectUnusedConstants(g, cands, beyond);
        SelectedIs(graph.node, graph.users, graph.producer, whole, rest, cands);
        SelectionInside(graph.node, whole);
        var calculations := CountCalculations(cands);
        enough := calculations >= rule.minFuseOps;
      }
    }

    method CountCalculations(cands: set<NodeId>) returns (count: nat)
      requires cands <= graph.node.Keys
      ensures count == |Calculating(graph.node, cands)|
    {
      count := 0;
      var rest := cands;
      ghost var seen: set<NodeId> := {};
      while rest != {}
        invariant rest <= cands
        invariant seen == Calculating(graph.node, cands - rest) && count == |seen|
      {
        var n :| n in rest;
        rest := rest - {n};
        if !ZeroCost(graph.node[n].op) {
          count := count + 1;
          seen := seen + {n};
        }
      }
      assert cands - rest == cands;
    }

    /** Gives the candidates a group and cuts them out, unless nothing goes in or out. */
    method MarkAndCreate(cands: set<NodeId>, id: nat, canFuseInitializers: bool, ghost beyond: set<NodeId>,
                         ghost keep: set<ValueId>)
      returns (created: bool, ghost t: Step)
      requires Ok() && Keeps(keep)
      requires cands <= SetOf(graph.nodes) && cands !! subgraph.Keys && Separated(graph.node, cands, beyond)
      modifies this, graph
      ensures Ok() && Keeps(keep)
      ensures forall kernels: Kernels :: Equivalent(kernels, old(State()), State(), keep)
      ensures created <==> !TakesNothing(old(graph.node), cands) && !GivesNothing(old(graph.node), results, cands)
      ensures !created ==> State() == old(State()) && fusionGroup == old(fusionGroup) + map n | n in cands :: id
      ensures created ==> Applicable(old(State()), t) && State() == Fuse(old(State()), t) && t.group == cands
      ensures created ==> fusionGroup == (old(fusionGroup) + map n | n in cands :: id)[t.fused := id]
      ensures created ==> TakesAsAsked(old(State()), t, canFuseInitializers)
    {
      hide *;
      Attached();
      KeepsMeans(keep);
      ghost var s, bound := State(), graph.nextValue;
      fusionGroup := fusionGroup + map n | n in cands :: id;
      var fused: NodeId;
      created, fused, t := CreateFusionGroup(cands, canFuseInitializers, beyond);
      ClassifiedEmpty(s.node, results, cands, t.inputs, t.outputs, t.temps);
      if created {
        fusionGroup := fusionGroup[fused := id];
        FuseKeepsUntouchable(s, t, bound, graph.nextValue, keep);
        FuseIsEquivalentForAll(s, t, keep);
        Attached();
      } else {
        UnchangedIsEquivalent(s, keep);
        Attached();
        UntouchableLater(s.node, bound, graph.nextValue, results, keep);
      }
      KeepsMeans(keep);
    }

    lemma KeepsMeans(keep: set<ValueId>)
      ensures Keeps(keep) <==> Untouchable(graph.node, graph.nextValue, results, keep)
    {
    }

    /** Fuses every connected set of fusable nodes.  Every run of the graph before is matched by
        a run after, and the other way round, with the same values of `keep`; no cycle arises.
        What is left unfused is not worth a group, but for components of nodes each of which
        started a group and was left out of it.  Which groups are created, and whether the program
        aborts (`ok` false), is what the plan says of the first graph.  It aborts only if that graph
        has a root group, and it does if what is selected of a whole component is one and a later
        node of the list is left out. */
    method FuseAllConnectedNodes(rule: Rule, canFuseInitializers: bool, ghost keep: set<ValueId>)
      returns (ok: bool, ghost lone: set<NodeId>, ghost made: seq<set<NodeId>>)
      requires Ok() && Keeps(keep) && GroupsNotFusable(rule)
      requires forall n :: Candidate(State(), rule, n) && n in fusionGroup ==> fusionGroup[n] == 0
      modifies this, graph
      ensures Ok()
      ensures forall kernels: Kernels :: Equivalent(kernels, old(State()), State(), keep)
      ensures ok ==> Spent(State(), fusionGroup, rule, {}, lone) && |lone| + |old(subgraph)| <= |subgraph|
      // The nodes of the new groups read what enters these in the first graph.
      ensures AllGroupsFed(old(State()), State(), canFuseInitializers)
      // Groups are numbered one by one, also those that are only marked.
      ensures Numbered(old(State()), old(fusionGroup), State(), fusionGroup, made)
      // The pass is what the plan of the first graph says.
      ensures ok <==> !Plans(old(State()), results, rule, old(graph.nodes)).aborted
      ensures ok ==> GroupsCreated(old(State()), Plans(old(State()), results, rule, old(graph.nodes)).groups, State())
      ensures ok ==> GroupsCalculate(old(State()), State(), rule)
      ensures ok ==> RestIsLeftOver(State(), fusionGroup, rule, lone)
      ensures !ok ==> RootExists(old(State()), results, rule)
      ensures forall i, j :: DoomedAt(old(State()), old(graph.nodes), rule, i, j) ==> !ok
      ensures !DeclinableExists(old(State()), results, rule) ==>
        ok && forall n :: Candidate(State(), rule, n) && n in fusionGroup ==> fusionGroup[n] == 0
    {
      hide *;
      ghost var s0, first, last := State(), -1, -1;
      Attached();
      MarkIs(fusionGroup);
      first, last := FirstDoomed(s0, graph.nodes, rule);
      ok, lone, made := true, {}, [];
      NumberedFirst(s0, fusionGroup);
      GoingStarts(s0, rule, results, fusionGroup, graph.nodes, first, last);
      var allNodes := graph.nodes;
      var numFusionGroups := 0;
      UnchangedIsEquivalent(s0, keep);
      NoneFed(s0, canFuseInitializers);
      FollowsFirst(s0, rule, fusionGroup);
      NothingPlanned(s0, results, rule, allNodes);
      var i := 0;
      while i < |allNodes|
        invariant 0 <= i <= |allNodes| && ok
        invariant Ok() && Keeps(keep) && s0.initializer == initializer
        invariant AllGroupsFed(s0, State(), canFuseInitializers)
        invariant Numbered(s0, old(fusionGroup), State(), fusionGroup, made) && |made| == numFusionGroups
        invariant forall kernels: Kernels :: Equivalent(kernels, s0, State(), keep)
        invariant Going(s0, rule, results, State(), fusionGroup, allNodes, i, lone, first, last)
        invariant Follows(s0, rule, Plans(s0, results, rule, allNodes[..i]), State(), fusionGroup)
      {
        ghost var p := Plans(s0, results, rule, allNodes[..i]);
        PlansNext(s0, results, rule, allNodes, i);
        var base := allNodes[i];
        ghost var s := State();
        i := i + 1;
        Attached();
        GoingBase(s0, rule, results, s, fusionGroup, allNodes, i, lone, first, last);
        MarkIs(fusionGroup);
        if (base !in fusionGroup || fusionGroup[base] == 0) && rule.isFusable(graph.node[base]) {
          var marked: bool;
          ok, marked, lone, made := FuseAround(base, numFusionGroups + 1, rule, canFuseInitializers, keep, s0, p,
                                               allNodes, i, lone, first, last, old(fusionGroup), made);
          EquivalentThrough(s0, s, State(), keep);
          if !ok {
            AbortedForGood(s0, results, rule, allNodes, i);
            return;
          }
          if marked { numFusionGroups := numFusionGroups + 1; }
        } else {
          GoingSkips(s0, rule, results, s, fusionGroup, allNodes, i, lone, first, last);
          PlanSkips(s0, results, rule, p, s, fusionGroup, base);
        }
      }
      Attached();
      MarkIs(fusionGroup);
      GoingEnds(s0, rule, results, State(), fusionGroup, allNodes, lone, first, last);
      SpentLeavesOver(State(), fusionGroup, rule, lone);
      AllPlanned(allNodes);
      PlanEnds(s0, rule, Plans(s0, results, rule, allNodes), State(), fusionGroup);
      CreatedCalculate(s0, results, rule, allNodes, State());
    }

    /** One pass through the body of the loop, for a candidate; `id` is the next group. */
    method FuseAround(base: NodeId, id: nat, rule: Rule, canFuseInitializers: bool, ghost keep: set<ValueId>,
                      ghost s0: Fused, ghost p: Plan, ghost list: seq<NodeId>, ghost i: nat,
                      ghost loneIn: set<NodeId>, ghost first: int, ghost last: int,
                      ghost marks0: map<NodeId, nat>, ghost madeIn: seq<set<NodeId>>)
      returns (ok: bool, marked: bool, ghost lone: set<NodeId>, ghost made: seq<set<NodeId>>)
      requires Ok() && Keeps(keep) && GroupsNotFusable(rule) && id > 0 && 0 < i <= |list| && base == list[i - 1]
      requires Candidate(State(), rule, base) && MarkOf(fusionGroup, base) == 0 && NoCrossing(s0)
      requires Going(s0, rule, results, State(), fusionGroup, list, i - 1, loneIn, first, last)
      requires Follows(s0, rule, p, State(), fusionGroup) && base in s0.outer
      requires AllGroupsFed(s0, State(), canFuseInitializers) && s0.initializer == initializer
      requires Numbered(s0, marks0, State(), fusionGroup, madeIn) && id == |madeIn| + 1
      modifies this, graph
      ensures Numbered(s0, marks0, State(), fusionGroup, made) && |made| == |madeIn| + if marked then 1 else 0
      ensures AllGroupsFed(s0, State(), canFuseInitializers)
      ensures Ok() && Keeps(keep)
      ensures forall kernels: Kernels :: Equivalent(kernels, old(State()), State(), keep)
      ensures ok ==> Going(s0, rule, results, State(), fusionGroup, list, i, lone, first, last)
      ensures !ok ==> RootExists(s0, results, rule) && DeclinableExists(s0, results, rule)
      ensures ok ==> Follows(s0, rule, Planned(s0, results, rule, p, base), State(), fusionGroup)
      ensures !ok ==> Planned(s0, results, rule, p, base).aborted
    {
      hide *;
      ghost var s, marks := State(), fusionGroup;
      lone, marked, made := loneIn, false, madeIn;
      Attached();
      PlanFound(s0, results, rule, p, s, marks, base);
      UnchangedIsEquivalent(s, keep);
      var enough: bool, cands: set<NodeId>;
      ghost var beyond: set<NodeId>;
      ok, enough, cands, beyond := Select(base, rule);
      if !ok {
        GoingAborts(s0, rule, results, s, marks, list, i, lone, first, last);
        PlanAborts(s0, results, rule, p, s, marks, base);
      } else if enough {
        marked, made := true, madeIn + [cands];
        var created: bool;
        ghost var t: Step;
        created, t := MarkAndCreate(cands, id, canFuseInitializers, beyond, keep);
        Attached();
        if created {
          ApplicableParts(s, t);
          CreatingGoesOn(s0, results, rule, p, s, t, State(), marks0, marks, fusionGroup, base, madeIn, id,
                         canFuseInitializers);
          GoingCreates(s0, rule, results, s, t, State(), marks, fusionGroup, id, list, i, lone, first, last);
          lone := if base in t.group then lone else lone + {base};
        } else {
          DecliningGoesOn(s0, results, rule, p, s, marks0, marks, fusionGroup, base, madeIn, id);
          GoingDeclines(s0, rule, results, s, marks, fusionGroup, id, list, i, lone, first, last);
        }
      } else {
        GoingRefuses(s0, rule, results, s, marks, list, i, lone, first, last);
        PlanRefuses(s0, results, rule, p, s, marks, base);
      }
    }
  }

  // ---- a graph on which the pass aborts ----

  /** A constant, its Relu, an operator that is not fusable, and the sum of the latter two. */
  function ConstantRootNodes(): map<NodeId, Node> {
    map[0 := Node(Constant(Real(1.0)), [], [0]), 1 := Node(Relu, [0], [1]), 2 := Node(Other(0), [1], [2]),
        3 := Node(Add, [1, 2], [3])]
  }

  ghost predicate FusesReluAndAdd(rule: Rule) {
    && (forall n: Node :: rule.isFusable(n) <==> n.op.Constant? || n.op.Relu? || n.op.Add?)
    && (forall n: NodeId :: !rule.isGrad(n)) && rule.minFuseOps <= 1
  }

  lemma ConstantRootFeeds(a: NodeId, b: NodeId)
    ensures Feeds(ConstantRootNodes(), a, b) <==> (a, b) in {(0, 1), (1, 2), (1, 3), (2, 3)}
  {
    var node := ConstantRootNodes();
    if (a, b) in {(0, 1), (1, 2), (1, 3), (2, 3)} { assert a in node[a].outputs && a in node[b].inputs; }
  }

  lemma ConstantRootComponent(rule: Rule)
    requires FusesReluAndAdd(rule)
    ensures ComponentOf(ConstantRootNodes(), rule, 0) == {0, 1, 3}
  {
    var node, k := ConstantRootNodes(), ComponentOf(ConstantRootNodes(), rule, 0);
    hide ComponentOf;
    ConstantRootFeeds(0, 1);
    ConstantRootFeeds(1, 3);
    assert Near(node, 0, 1) && Near(node, 1, 3);
    assert 1 in k;
    assert 3 in k;
    forall a, b | a in {0, 1, 3} && Near(node, a, b) && Partner(node, rule, 0, b) ensures b in {0, 1, 3} {
      ConstantRootFeeds(a, b);
      ConstantRootFeeds(b, a);
    }
    assert Joined(node, rule, 0, {0, 1, 3});
  }

  lemma ConstantRootSelection()
    ensures Selection(ConstantRootNodes(), {0, 1, 3}) == {0, 1}
  {
    hide ConstantRootNodes, BehindOf, Selection, Feeds;
    var node, k := ConstantRootNodes(), {0, 1, 3};
    ConstantRootBehind();
    ConstantRootKeys();
    ConstantRootFeeds(0, 1);
    forall n ensures n in Selection(node, k) <==> n in {0, 1} {
      SelectionIs(node, k, n);
    }
  }

  lemma ConstantRootBehind()
    ensures BehindOf(ConstantRootNodes(), {0, 1, 3}) == {2, 3}
  {
    hide ConstantRootNodes, BehindOf, Feeds;
    var node, k := ConstantRootNodes(), {0, 1, 3};
    ConstantRootKeys();
    ConstantRootFeeds(1, 2);
    ConstantRootFeeds(2, 3);
    assert 2 in BehindOf(node, k);
    forall a, b | Feeds(node, a, b) ensures (a, b) in {(0, 1), (1, 2), (1, 3), (2, 3)} { ConstantRootFeeds(a, b); }
    assert Behind(node, k, {2, 3});
    BehindIsLeast(node, k, {2, 3});
  }

  lemma ConstantRootKeys()
    ensures ConstantRootNodes().Keys == {0, 1, 2, 3}
    ensures ConstantRootNodes()[0].op.Constant? && !ConstantRootNodes()[1].op.Constant?
  {
  }

  /** There is nothing wrong with that graph, but fusing its operations aborts: Constant and
      Relu are marked, nothing goes into them, and the search around Add meets them. */
  lemma ConstantRootAborts(s: Fused, rule: Rule, results: set<ValueId>)
    requires s == Fused(ConstantRootNodes(), {0, 1, 2, 3}, map[], map[]) && FusesReluAndAdd(rule)
    ensures WellFormed(s) && DoomedAt(s, [0, 1, 2, 3], rule, 0, 3)
    ensures Plans(s, results, rule, [0, 1, 2, 3]).aborted
  {
    hide ComponentOf, Selection, WellFormed, TakesNothing, Calculating, ConstantRootNodes, Plans;
    ConstantRootForm(s);
    ConstantRootComponent(rule);
    ConstantRootSelection();
    ConstantRootGroup();
    ConstantRootKeys();
    ConstantRootPlan(s, rule, results);
  }

  lemma ConstantRootPlan(s: Fused, rule: Rule, results: set<ValueId>)
    requires s == Fused(ConstantRootNodes(), {0, 1, 2, 3}, map[], map[]) && FusesReluAndAdd(rule)
    ensures Plans(s, results, rule, [0, 1, 2, 3]).aborted
  {
    hide Planned;
    var list := [0, 1, 2, 3];
    var none, p := Plan({}, {}, false), Plan({}, {0, 1}, false);
    NothingPlanned(s, results, rule, list);
    PlansNext(s, results, rule, list, 0);
    PlansNext(s, results, rule, list, 1);
    PlansNext(s, results, rule, list, 2);
    PlansNext(s, results, rule, list, 3);
    ConstantRootFirst(s, rule, results);
    ConstantRootOthers(s, rule, results);
    assert list[..4] == list;
  }

  lemma ConstantRootFirst(s: Fused, rule: Rule, results: set<ValueId>)
    requires s == Fused(ConstantRootNodes(), {0, 1, 2, 3}, map[], map[]) && FusesReluAndAdd(rule)
    ensures Planned(s, results, rule, Plan({}, {}, false), 0) == Plan({}, {0, 1}, false)
  {
    hide ComponentOf, Selection, Chosen, TakesNothing, GivesNothing, Calculating, ConstantRootNodes, LeftOf;
    ConstantRootKeys();
    LeftFirst(s);
    ConstantRootComponent(rule);
    ChosenFirst(s.node, {0, 1, 3});
    ConstantRootSelection();
    ConstantRootGroup();
  }

  lemma ConstantRootOthers(s: Fused, rule: Rule, results: set<ValueId>)
    requires s == Fused(ConstantRootNodes(), {0, 1, 2, 3}, map[], map[]) && FusesReluAndAdd(rule)
    ensures
      var p := Plan({}, {0, 1}, false);
      && Planned(s, results, rule, p, 1) == p && Planned(s, results, rule, p, 2) == p
      && Planned(s, results, rule, p, 3).aborted
  {
    hide ComponentOf, Selection, Chosen, TakesNothing, GivesNothing, Calculating, LeftOf;
    LeftFirst(s);
    ConstantRootComponent(rule);
    SameComponent(s.node, rule, 0, 3);
  }

  lemma ConstantRootGroup()
    ensures TakesNothing(ConstantRootNodes(), {0, 1}) && |Calculating(ConstantRootNodes(), {0, 1})| == 1
  {
    var node := ConstantRootNodes();
    assert Calculating(node, {0, 1}) == {1};
    forall v | C.ReadBy(node, {0, 1}, v) ensures C.WrittenBy(node, {0, 1}, v) {
      assert v in node[0].outputs;
    }
  }

  lemma ConstantRootForm(s: Fused)
    requires s == Fused(ConstantRootNodes(), {0, 1, 2, 3}, map[], map[])
    ensures WellFormed(s)
  {
    var rank := map n | n in s.node :: n;
    forall a, b | Feeds(s.node, a, b) ensures rank[a] < rank[b] { ConstantRootFeeds(a, b); }
    assert Ranked(s.node, rank);
  }
}
