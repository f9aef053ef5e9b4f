/** compiler/fusion.cc, `FuseAllConnectedNodes`: which nodes are fused with a base node, what a
    fusion leaves for later ones, and when the pass aborts. */
module FusionChoice {
  import opened Ir
  import opened Renaming
  import opened FusionCandidates
  import opened FusionMeaning
  import C = ClassifyValues

  /** What the pass is called with. */
  datatype Rule = Rule(minFuseOps: nat, isFusable: Node -> bool, isGrad: NodeId -> bool)

  ghost predicate GroupsNotFusable(rule: Rule) {
    forall n: Node :: n.op == FusionGroup ==> !rule.isFusable(n)
  }

  /** Node::IsZeroCost. */
  predicate ZeroCost(op: Op) {
    op.Identity? || op.Constant? || op.Reshape?
  }

  // ---- components of fusable nodes ----

  ghost predicate Near(node: map<NodeId, Node>, a: NodeId, b: NodeId) {
    Feeds(node, a, b) || Feeds(node, b, a)
  }

  /** `n` may be fused with `base`. */
  ghost predicate Partner(node: map<NodeId, Node>, rule: Rule, base: NodeId, n: NodeId) {
    n in node && rule.isFusable(node[n]) && rule.isGrad(n) == rule.isGrad(base)
  }

  /** Every neighbour of the set that is a partner of `base` is in the set too. */
  ghost predicate Joined(node: map<NodeId, Node>, rule: Rule, base: NodeId, cands: set<NodeId>) {
    forall a, b :: a in cands && Near(node, a, b) && Partner(node, rule, base, b) ==> b in cands
  }

  ghost predicate InComponent(node: map<NodeId, Node>, rule: Rule, base: NodeId, n: NodeId) {
    n in node && forall all: set<NodeId> | base in all && Joined(node, rule, base, all) :: n in all
  }

  /** The least set around `base` that is joined. */
  ghost function ComponentOf(node: map<NodeId, Node>, rule: Rule, base: NodeId): (r: set<NodeId>)
    ensures base in node ==> base in r
    ensures Joined(node, rule, base, r)
    ensures forall all: set<NodeId> | base in all && Joined(node, rule, base, all) :: r <= all
  {
    set n | n in node && InComponent(node, rule, base, n)
  }

  lemma ComponentPartners(node: map<NodeId, Node>, rule: Rule, base: NodeId)
    requires Partner(node, rule, base, base)
    ensures forall n :: n in ComponentOf(node, rule, base) ==> Partner(node, rule, base, n)
  {
    var all := set n | n in node && Partner(node, rule, base, n);
    assert Joined(node, rule, base, all);
  }

  /** All members have the same component. */
  lemma SameComponent(node: map<NodeId, Node>, rule: Rule, base: NodeId, other: NodeId)
    requires Partner(node, rule, base, base) && other in ComponentOf(node, rule, base)
    ensures ComponentOf(node, rule, other) == ComponentOf(node, rule, base)
  {
    hide ComponentOf;
    ComponentPartners(node, rule, base);
    var here, there := ComponentOf(node, rule, base), ComponentOf(node, rule, other);
    assert Joined(node, rule, other, here);
    assert Joined(node, rule, base, there);
    JoinedRest(node, rule, base, here, there);
  }

  lemma JoinedRest(node: map<NodeId, Node>, rule: Rule, base: NodeId, here: set<NodeId>, there: set<NodeId>)
    requires Joined(node, rule, base, here) && Joined(node, rule, base, there)
    requires forall n :: n in here ==> Partner(node, rule, base, n)
    ensures Joined(node, rule, base, here - there)
  {
    forall a, b | a in here - there && Near(node, a, b) && Partner(node, rule, base, b) ensures b in here - there {
      assert Near(node, b, a);
    }
  }

  /** Partners of `base`, each a neighbour of the one before. */
  ghost predicate Trail(node: map<NodeId, Node>, rule: Rule, base: NodeId, p: seq<NodeId>) {
    && p != [] && p[0] == base
    && forall i :: 0 < i < |p| ==> Near(node, p[i - 1], p[i]) && Partner(node, rule, base, p[i])
  }

  /** A trail leads from the base to each of its candidates. */
  lemma ComponentIsConnected(node: map<NodeId, Node>, rule: Rule, base: NodeId, n: NodeId)
    requires base in node && n in ComponentOf(node, rule, base)
    ensures exists p :: Trail(node, rule, base, p) && p[|p| - 1] == n
  {
    hide Near, ComponentOf;
    var all := set m | m in node && exists p :: Trail(node, rule, base, p) && p[|p| - 1] == m;
    assert Trail(node, rule, base, [base]) && [base][|[base]| - 1] == base;
    forall a, b | a in all && Near(node, a, b) && Partner(node, rule, base, b) ensures b in all {
      var p :| Trail(node, rule, base, p) && p[|p| - 1] == a;
      assert Trail(node, rule, base, p + [b]);
      assert (p + [b])[|p + [b]| - 1] == b;
    }
    assert Joined(node, rule, base, all);
  }

  // ---- what is selected of a component ----

  ghost function WithoutUnused(node: map<NodeId, Node>, rest: set<NodeId>): set<NodeId> {
    set n | n in rest && n in node && (node[n].op.Constant? ==> exists u :: u in rest && Feeds(node, n, u))
  }

  /** Nodes that are not behind the component, without constants that none of them reads. */
  ghost function Selection(node: map<NodeId, Node>, cands: set<NodeId>): set<NodeId> {
    WithoutUnused(node, cands - BehindOf(node, cands))
  }

  /** An operator other than Identity, Constant and Reshape. */
  ghost predicate Calculates(op: Op) {
    op != Identity && !op.Constant? && op != Reshape
  }

  ghost function Calculating(node: map<NodeId, Node>, cands: set<NodeId>): set<NodeId> {
    set n | n in cands && n in node && Calculates(node[n].op)
  }

  /** The selection is large enough for a group. */
  ghost predicate Worth(node: map<NodeId, Node>, rule: Rule, cands: set<NodeId>) {
    Selection(node, cands) != {} && |Calculating(node, Selection(node, cands))| >= rule.minFuseOps
  }

  lemma NotWorth(node: map<NodeId, Node>, rule: Rule, cands: set<NodeId>)
    requires |Calculating(node, Selection(node, cands))| < rule.minFuseOps
    ensures !Worth(node, rule, cands)
  {
  }

  lemma FewerCalculate(node: map<NodeId, Node>, other: map<NodeId, Node>, cands: set<NodeId>, fewer: set<NodeId>)
    requires fewer <= cands && forall n :: n in fewer && n in other ==> n in node && node[n] == other[n]
    ensures |Calculating(other, fewer)| <= |Calculating(node, cands)|
  {
    SubsetSize(Calculating(other, fewer), Calculating(node, cands));
  }

  lemma {:induction false} SubsetSize(a: set<NodeId>, b: set<NodeId>)
    requires a <= b
    ensures |a| <= |b|
  {
    if a != {} {
      var x :| x in a;
      SubsetSize(a - {x}, b - {x});
    }
  }

  // ---- the graph while groups are formed ----

  /** Reads stay within the graph or within a subgraph. */
  ghost predicate NoCrossing(s: Fused) {
    forall a, b :: Feeds(s.node, a, b) ==> (a in s.outer <==> b in s.outer)
  }

  ghost predicate InitializersUnwritten(s: Fused) {
    forall v, n :: v in s.initializer && n in s.node ==> v !in s.node[n].outputs
  }

  /** One group was cut out of the component of `base`. */
  ghost predicate Contracted(s: Fused, t: Step, s': Fused, rule: Rule, base: NodeId) {
    && Applicable(s, t) && t.taken.Keys <= t.names.Keys && s' == Fuse(s, t)
    && NoCrossing(s) && NoCrossing(s') && InitializersUnwritten(s) && GroupsNotFusable(rule)
    && base in s.outer && Partner(s.node, rule, base, base) && t.group <= ComponentOf(s.node, rule, base)
  }

  /** What the lemmas below use of it. */
  ghost predicate Cut(s: Fused, group: set<NodeId>, f: NodeId, s': Fused) {
    && s.outer <= s.node.Keys && group <= s.outer && f !in s.node && f in s'.node && s'.node[f].op == FusionGroup
    && s'.outer == s.outer - group + {f} && NoCrossing(s) && NoCrossing(s')
    && (forall n :: n in s.outer && n !in group ==> n in s'.node && s'.node[n] == s.node[n])
    && (forall a, b :: Feeds(s.node, a, b) && a in s.outer && Image(group, f, a) != Image(group, f, b) ==>
          Feeds(s'.node, Image(group, f, a), Image(group, f, b)))
  }

  function Image(group: set<NodeId>, f: NodeId, n: NodeId): NodeId {
    if n in group then f else n
  }

  lemma GroupWrites(s: Fused, t: Step, a: NodeId, b: NodeId, v: ValueId)
    requires Applicable(s, t) && a in t.group && a in s.node && b in s.node && b !in t.group
    requires v in s.node[a].outputs && v in s.node[b].inputs
    ensures v in t.outputSeq
  {
    assert C.WrittenBy(s.node, t.group, v) && C.UsedOutside(s.node, t.group, v);
    assert v in SetOf(t.outputSeq);
  }

  lemma GroupReads(s: Fused, t: Step, a: NodeId, b: NodeId, v: ValueId)
    requires Applicable(s, t) && InitializersUnwritten(s) && a in s.node && a !in t.group && b in t.group && b in s.node
    requires v in s.node[a].outputs && v in s.node[b].inputs
    ensures v in t.inputSeq
  {
    assert C.ReadBy(s.node, t.group, v);
    assert forall k :: k in t.group && k in s.node && v in s.node[k].outputs ==> k == a;
    assert v !in t.taken;
    assert v in SetOf(t.inputSeq);
  }

  lemma ContractedIsCut(s: Fused, t: Step, s': Fused, rule: Rule, base: NodeId)
    requires Contracted(s, t, s', rule, base)
    ensures Cut(s, t.group, t.fused, s')
  {
    CutOuter(s, t);
    forall a, b | Feeds(s.node, a, b) && a in s.outer && Image(t.group, t.fused, a) != Image(t.group, t.fused, b)
      ensures Feeds(s'.node, Image(t.group, t.fused, a), Image(t.group, t.fused, b))
    {
      CutFeeds(s, t, a, b);
    }
  }

  lemma ApplicableParts(s: Fused, t: Step)
    requires Applicable(s, t)
    ensures t.group <= s.outer <= s.node.Keys && t.group !! s.subgraph.Keys && t.fused !in s.node
    ensures t.fused !in s.subgraph
    ensures t.taken.Keys <= t.names.Keys && FreshNames(s.node, t.names)
    ensures forall v, w :: v in s.initializer && w in t.names ==> t.names[w] != v
  {
    hide FreshNames, UniqueWriter, C.Classified;
  }

  lemma FuseParts(s: Fused, t: Step)
    requires t.taken.Keys <= t.names.Keys && t.fused !in s.node && t.fused !in s.subgraph
    ensures
      var s' := Fuse(s, t);
      && s'.outer == s.outer - t.group + {t.fused} && s'.node.Keys == s.node.Keys + {t.fused}
      && s'.initializer == s.initializer
      && s'.subgraph.Keys == s.subgraph.Keys + {t.fused} && s'.subgraph[t.fused].nodes == t.group
      && (forall f :: f in s.subgraph ==> s'.subgraph[f] == s.subgraph[f])
      && s'.node[t.fused] == GroupNode(t)
      && (forall n :: n in s.node ==>
            s'.node[n] == if n in t.group then RenameNode(t.names, s.node[n]) else s.node[n])
  {
    hide RenameNode, InnerInitializers;
  }

  lemma CutOuter(s: Fused, t: Step)
    requires Applicable(s, t)
    ensures t.taken.Keys <= t.names.Keys && s.outer <= s.node.Keys && t.group <= s.outer
    ensures
      var s' := Fuse(s, t);
      && s'.outer == s.outer - t.group + {t.fused} && t.fused !in s.node && t.fused in s'.node
      && s'.node[t.fused] == GroupNode(t)
      && (forall n :: n in s.outer && n !in t.group ==> n in s'.node && s'.node[n] == s.node[n])
  {
    hide Fuse, Applicable, FreshNames;
    ApplicableParts(s, t);
    FuseParts(s, t);
  }

  lemma CutFeeds(s: Fused, t: Step, a: NodeId, b: NodeId)
    requires Applicable(s, t) && InitializersUnwritten(s) && NoCrossing(s)
    requires Feeds(s.node, a, b) && a in s.outer && Image(t.group, t.fused, a) != Image(t.group, t.fused, b)
    ensures t.taken.Keys <= t.names.Keys
    ensures Feeds(Fuse(s, t).node, Image(t.group, t.fused, a), Image(t.group, t.fused, b))
  {
    hide Applicable, Fuse;
    CutOuter(s, t);
    var v :| v in s.node[a].outputs && v in s.node[b].inputs;
    if a in t.group {
      GroupWrites(s, t, a, b, v);
    } else if b in t.group {
      GroupReads(s, t, a, b, v);
    }
  }

  /** A partner next to a node that stayed was its neighbour before. */
  lemma CutNeighbour(s: Fused, group: set<NodeId>, f: NodeId, s': Fused, rule: Rule, n: NodeId, a: NodeId, b: NodeId)
    requires Cut(s, group, f, s') && GroupsNotFusable(rule)
    requires a in s.outer && a !in group && Near(s'.node, a, b) && Partner(s'.node, rule, n, b)
    ensures b in s.outer && b !in group && Near(s.node, a, b) && Partner(s.node, rule, n, b)
  {
    assert a in s'.outer;
    assert b in s'.outer;
    assert b != f;
  }

  /** Components only shrink ... */
  lemma ComponentShrinks(s: Fused, group: set<NodeId>, f: NodeId, s': Fused, rule: Rule, n: NodeId)
    requires Cut(s, group, f, s') && GroupsNotFusable(rule) && n in s.outer && n !in group
    ensures ComponentOf(s'.node, rule, n) <= ComponentOf(s.node, rule, n)
    ensures ComponentOf(s'.node, rule, n) !! group && ComponentOf(s'.node, rule, n) <= s.outer
  {
    var all := set m | m in ComponentOf(s.node, rule, n) && m in s.outer && m !in group;
    hide ComponentOf, Cut;
    assert n in all by { CutOuterNodes(s, group, f, s'); }
    forall a, b | a in all && Near(s'.node, a, b) && Partner(s'.node, rule, n, b) ensures b in all {
      CutNeighbour(s, group, f, s', rule, n, a, b);
    }
    assert Joined(s'.node, rule, n, all);
  }

  lemma CutOuterNodes(s: Fused, group: set<NodeId>, f: NodeId, s': Fused)
    requires Cut(s, group, f, s')
    ensures s.outer <= s.node.Keys && group <= s.outer && f !in s.outer && s'.outer == s.outer - group + {f}
    ensures f in s'.node
    ensures forall n :: n in s.outer && n !in group ==> n in s'.node && s'.node[n] == s.node[n]
    ensures s'.node[f].op == FusionGroup
  {
  }

  lemma OuterNear(s: Fused, a: NodeId, b: NodeId)
    requires NoCrossing(s) && Near(s.node, a, b)
    ensures a in s.outer <==> b in s.outer
  {
  }

  lemma CutNear(s: Fused, group: set<NodeId>, f: NodeId, s': Fused, a: NodeId, b: NodeId)
    requires Cut(s, group, f, s') && a in s.outer && b in s.outer && a !in group && b !in group
    ensures Near(s.node, a, b) <==> Near(s'.node, a, b)
  {
  }

  /** ... and those of other nodes stay as they are. */
  lemma ComponentStays(s: Fused, group: set<NodeId>, f: NodeId, s': Fused, rule: Rule, base: NodeId, n: NodeId)
    requires Cut(s, group, f, s') && GroupsNotFusable(rule)
    requires base in s.outer && Partner(s.node, rule, base, base) && group <= ComponentOf(s.node, rule, base)
    requires n in s.outer && Partner(s.node, rule, n, n) && n !in ComponentOf(s.node, rule, base)
    ensures ComponentOf(s'.node, rule, n) == ComponentOf(s.node, rule, n)
    ensures ComponentOf(s.node, rule, n) !! ComponentOf(s.node, rule, base)
  {
    var k, now, before := ComponentOf(s.node, rule, base), ComponentOf(s'.node, rule, n), ComponentOf(s.node, rule, n);
    ComponentPartners(s.node, rule, base);
    ComponentPartners(s.node, rule, n);
    ComponentShrinks(s, group, f, s', rule, n);
    CutOuterNodes(s, group, f, s');
    assert before !! k by {
      if m :| m in before && m in k {
        SameComponent(s.node, rule, n, m);
        SameComponent(s.node, rule, base, m);
      }
    }
    assert NoCrossing(s);
    hide ComponentOf, Near, Cut, NoCrossing;
    forall a, b | a in now && Near(s.node, a, b) && Partner(s.node, rule, n, b) ensures b in now {
      assert b in before;
      OuterNear(s, a, b);
      CutNear(s, group, f, s', a, b);
    }
    assert Joined(s.node, rule, n, now);
  }

  /** Contracting nodes elsewhere puts nothing less behind a component. */
  lemma BehindGrows(s: Fused, group: set<NodeId>, f: NodeId, s': Fused, k: set<NodeId>)
    requires Cut(s, group, f, s') && k <= s.outer && k !! group
    ensures BehindOf(s.node, k) * k <= BehindOf(s'.node, k)
  {
    var seen := BehindOf(s'.node, k);
    var all := set n | n in s.outer && Image(group, f, n) in seen;
    hide BehindOf;
    forall a, b | (a in k || a in all) && a in s.node && (a in k ==> b !in k || a in all) && Feeds(s.node, a, b)
      ensures b in all
    {
      assert b in s.outer;
      if Image(group, f, a) != Image(group, f, b) {
        assert Feeds(s'.node, Image(group, f, a), Image(group, f, b));
      }
    }
    assert Behind(s.node, k, all);
    assert BehindOf(s.node, k) <= all by { BehindIsLeast(s.node, k, all); }
  }

  lemma BehindIsLeast(node: map<NodeId, Node>, cands: set<NodeId>, nodes: set<NodeId>)
    requires Behind(node, cands, nodes)
    ensures BehindOf(node, cands) <= nodes
  {
  }

  lemma SelectionShrinks(s: Fused, group: set<NodeId>, f: NodeId, s': Fused, k: set<NodeId>)
    requires Cut(s, group, f, s') && k <= s.outer && k !! group
    ensures Selection(s'.node, k) <= Selection(s.node, k)
  {
    BehindGrows(s, group, f, s', k);
    hide BehindOf;
    CutOuterNodes(s, group, f, s');
    forall n | n in Selection(s'.node, k) ensures n in Selection(s.node, k) {
      if s.node[n].op.Constant? {
        var u :| u in k - BehindOf(s'.node, k) && Feeds(s'.node, n, u);
        assert Feeds(s.node, n, u);
      }
    }
  }

  /** A component elsewhere that is not worth a group does not become so. */
  lemma WorthShrinks(s: Fused, group: set<NodeId>, f: NodeId, s': Fused, rule: Rule, k: set<NodeId>)
    requires Cut(s, group, f, s') && k <= s.outer && k !! group && Worth(s'.node, rule, k)
    ensures Worth(s.node, rule, k)
  {
    SelectionShrinks(s, group, f, s', k);
    CutOuterNodes(s, group, f, s');
    FewerCalculate(s.node, s'.node, Selection(s.node, k), Selection(s'.node, k));
  }

  // ---- groups that cannot be created ----

  /** All that the nodes read is written by one of them. */
  ghost predicate TakesNothing(node: map<NodeId, Node>, group: set<NodeId>) {
    forall v :: C.ReadBy(node, group, v) ==> C.WrittenBy(node, group, v)
  }

  /** Nobody else wants what the nodes write. */
  ghost predicate GivesNothing(node: map<NodeId, Node>, results: set<ValueId>, group: set<NodeId>) {
    forall v :: C.WrittenBy(node, group, v) ==> v !in results && !C.UsedOutside(node, group, v)
  }

  /** Nodes of one phase that could be selected and for which no group would be created. */
  ghost predicate Declinable(s: Fused, results: set<ValueId>, rule: Rule, group: set<NodeId>) {
    && group != {} && group <= s.outer * s.node.Keys
    && (forall n :: n in group ==> rule.isFusable(s.node[n]))
    && (forall m, n :: m in group && n in group ==> rule.isGrad(m) == rule.isGrad(n))
    && |Calculating(s.node, group)| >= rule.minFuseOps
    && (TakesNothing(s.node, group) || GivesNothing(s.node, results, group))
  }

  /** Such nodes that read nothing from outside, read themselves by a partner outside. */
  ghost predicate RootGroup(s: Fused, results: set<ValueId>, rule: Rule, group: set<NodeId>) {
    && Declinable(s, results, rule, group) && TakesNothing(s.node, group)
    && exists a, b :: a in group && b in s.outer && b !in group && Partner(s.node, rule, a, b) && Feeds(s.node, a, b)
  }

  /** A read of the graph at the start: it is still there, or goes into a group, or no node
      but a group writes the value any more. */
  ghost predicate StillRead(s: Fused, n: NodeId, v: ValueId) {
    || (n in s.outer && n in s.node && v in s.node[n].inputs)
    || (exists f :: f in s.outer && f in s.node && s.node[f].op == FusionGroup && v in s.node[f].inputs)
    || NotWritten(s, v)
  }

  ghost predicate NotWritten(s: Fused, v: ValueId) {
    forall m :: m in s.outer && m in s.node && v in s.node[m].outputs ==> s.node[m].op == FusionGroup
  }

  /** What fusing has left of the graph it started with. */
  ghost predicate Evolved(s0: Fused, s: Fused) {
    && (forall n :: n in s.outer && n in s.node && s.node[n].op != FusionGroup ==>
          n in s0.outer && n in s0.node && s0.node[n] == s.node[n])
    && (forall n, v :: n in s0.outer && n in s0.node && v in s0.node[n].inputs ==> StillRead(s, n, v))
  }

  lemma ReadStays(s: Fused, t: Step, s': Fused, rule: Rule, base: NodeId, n: NodeId, v: ValueId)
    requires Contracted(s, t, s', rule, base) && StillRead(s, n, v)
    ensures StillRead(s', n, v)
  {
    hide Contracted, Applicable, Fuse, NotWritten;
    ContractedParts(s, t, s', rule, base);
    if n in s.outer && n in s.node && v in s.node[n].inputs {
      if n in t.group { InnerReadStays(s, t, s', n, v); } else { OuterReadStays(s, t, s', n, v); }
    } else if f :| f in s.outer && f in s.node && s.node[f].op == FusionGroup && v in s.node[f].inputs {
      GroupIsPlain(s, t, s', rule, base);
      OuterReadStays(s, t, s', f, v);
    } else {
      StaysUnwritten(s, t, s', v);
    }
  }

  lemma OuterReadStays(s: Fused, t: Step, s': Fused, n: NodeId, v: ValueId)
    requires Applicable(s, t) && t.taken.Keys <= t.names.Keys && s' == Fuse(s, t)
    requires n in s.outer && n in s.node && n !in t.group && v in s.node[n].inputs
    ensures n in s'.outer && n in s'.node && s'.node[n] == s.node[n]
  {
    hide Fuse, Applicable;
    CutOuter(s, t);
  }

  lemma StaysUnwritten(s: Fused, t: Step, s': Fused, v: ValueId)
    requires Applicable(s, t) && t.taken.Keys <= t.names.Keys && s' == Fuse(s, t) && NotWritten(s, v)
    ensures NotWritten(s', v)
  {
    hide Fuse, Applicable;
    CutOuter(s, t);
  }

  /** What a node of the group reads comes from the group, is an initializer or is read by the new node. */
  lemma InnerReadStays(s: Fused, t: Step, s': Fused, n: NodeId, v: ValueId)
    requires Applicable(s, t) && t.taken.Keys <= t.names.Keys && s' == Fuse(s, t) && InitializersUnwritten(s)
    requires n in t.group && n in s.node && v in s.node[n].inputs
    ensures StillRead(s', n, v)
  {
    hide Fuse, Applicable, InitializersUnwritten;
    CutOuter(s, t);
    if k :| k in t.group && k in s.node && v in s.node[k].outputs {
      GroupWritesAlone(s, t, k, v);
      assert NotWritten(s', v);
    } else if v in t.taken {
      TakenUnwritten(s, t, v);
      assert NotWritten(s', v);
    } else {
      GroupReadsIn(s, t, n, v);
      assert v in s'.node[t.fused].inputs;
    }
  }

  lemma GroupWritesAlone(s: Fused, t: Step, k: NodeId, v: ValueId)
    requires Applicable(s, t) && k in t.group && k in s.node && v in s.node[k].outputs
    ensures forall m :: m in s.outer && m in s.node && v in s.node[m].outputs ==> m in t.group
  {
    hide FreshNames, C.Classified;
  }

  lemma TakenUnwritten(s: Fused, t: Step, v: ValueId)
    requires Applicable(s, t) && InitializersUnwritten(s) && v in t.taken
    ensures forall m :: m in s.node ==> v !in s.node[m].outputs
  {
    hide FreshNames, C.Classified, UniqueWriter;
  }

  lemma GroupReadsIn(s: Fused, t: Step, n: NodeId, v: ValueId)
    requires Applicable(s, t) && n in t.group && n in s.node && v in s.node[n].inputs && v !in t.taken
    requires forall k :: k in t.group && k in s.node ==> v !in s.node[k].outputs
    ensures v in t.inputSeq
  {
    hide FreshNames, UniqueWriter;
    assert C.ReadBy(s.node, t.group, v);
    assert v in SetOf(t.inputSeq);
  }

  lemma GroupIsPlain(s: Fused, t: Step, s': Fused, rule: Rule, base: NodeId)
    requires Contracted(s, t, s', rule, base)
    ensures forall n :: n in t.group ==> Partner(s.node, rule, base, n) && s.node[n].op != FusionGroup
  {
    ComponentPartners(s.node, rule, base);
  }

  lemma EvolvedNodes(s0: Fused, s: Fused, t: Step, s': Fused)
    requires Evolved(s0, s) && Applicable(s, t) && t.taken.Keys <= t.names.Keys && s' == Fuse(s, t)
    ensures forall n :: n in s'.outer && n in s'.node && s'.node[n].op != FusionGroup ==>
      n in s0.outer && n in s0.node && s0.node[n] == s'.node[n]
  {
    hide Fuse, Applicable, StillRead;
    CutOuter(s, t);
    EvolvedPlain(s0, s);
  }

  lemma EvolvedPlain(s0: Fused, s: Fused)
    requires Evolved(s0, s)
    ensures forall n :: n in s.outer && n in s.node && s.node[n].op != FusionGroup ==>
      n in s0.outer && n in s0.node && s0.node[n] == s.node[n]
  {
    hide StillRead;
  }

  lemma EvolvedReads(s0: Fused, s: Fused, t: Step, s': Fused, rule: Rule, base: NodeId)
    requires Evolved(s0, s) && Contracted(s, t, s', rule, base)
    ensures forall n, v :: n in s0.outer && n in s0.node && v in s0.node[n].inputs ==> StillRead(s', n, v)
  {
    hide StillRead, Contracted;
    forall n, v | n in s0.outer && n in s0.node && v in s0.node[n].inputs ensures StillRead(s', n, v) {
      ReadStays(s, t, s', rule, base, n, v);
    }
  }

  lemma ContractedParts(s: Fused, t: Step, s': Fused, rule: Rule, base: NodeId)
    requires Contracted(s, t, s', rule, base)
    ensures Applicable(s, t) && t.taken.Keys <= t.names.Keys && s' == Fuse(s, t) && InitializersUnwritten(s)
  {
    hide Applicable, Fuse, NoCrossing, ComponentOf, InitializersUnwritten;
  }

  lemma EvolvedNext(s0: Fused, s: Fused, t: Step, s': Fused, rule: Rule, base: NodeId)
    requires Evolved(s0, s) && Contracted(s, t, s', rule, base)
    ensures Evolved(s0, s')
  {
    hide StillRead, Contracted, Evolved, Applicable, Fuse;
    ContractedParts(s, t, s', rule, base);
    EvolvedNodes(s0, s, t, s');
    EvolvedReads(s0, s, t, s', rule, base);
    EvolvedIs(s0, s');
  }

  lemma EvolvedIs(s0: Fused, s: Fused)
    requires forall n :: n in s.outer && n in s.node && s.node[n].op != FusionGroup ==>
      n in s0.outer && n in s0.node && s0.node[n] == s.node[n]
    requires forall n, v :: n in s0.outer && n in s0.node && v in s0.node[n].inputs ==> StillRead(s, n, v)
    ensures Evolved(s0, s)
  {
    hide StillRead;
  }

  /** What no group can be created for later could not have been one at the start. */
  lemma DeclinableBefore(s0: Fused, s: Fused, results: set<ValueId>, rule: Rule, group: set<NodeId>)
    requires Evolved(s0, s) && Declinable(s, results, rule, group) && GroupsNotFusable(rule) && NoCrossing(s0)
    ensures Declinable(s0, results, rule, group)
    ensures TakesNothing(s.node, group) ==> TakesNothing(s0.node, group)
  {
    SameMembers(s0, s, results, rule, group);
    FewerCalculate(s0.node, s.node, group, group);
    if TakesNothing(s.node, group) {
      hide Evolved, StillRead, NotWritten;
      assert TakesNothing(s0.node, group);
    } else {
      forall v | C.WrittenBy(s0.node, group, v) ensures v !in results && !C.UsedOutside(s0.node, group, v) {
        NotWanted(s0, s, results, rule, group, v);
      }
    }
  }

  lemma SameMembers(s0: Fused, s: Fused, results: set<ValueId>, rule: Rule, group: set<NodeId>)
    requires Evolved(s0, s) && Declinable(s, results, rule, group) && GroupsNotFusable(rule)
    ensures group <= s0.outer * s0.node.Keys
    ensures forall n :: n in group ==>
      n in s.node && n in s0.node && s0.node[n] == s.node[n] && s.node[n].op != FusionGroup
    ensures forall v :: C.ReadBy(s0.node, group, v) <==> C.ReadBy(s.node, group, v)
    ensures forall v :: C.WrittenBy(s0.node, group, v) <==> C.WrittenBy(s.node, group, v)
  {
    hide StillRead;
  }

  lemma NotWanted(s0: Fused, s: Fused, results: set<ValueId>, rule: Rule, group: set<NodeId>, v: ValueId)
    requires Evolved(s0, s) && Declinable(s, results, rule, group) && GroupsNotFusable(rule) && NoCrossing(s0)
    requires GivesNothing(s.node, results, group) && C.WrittenBy(s0.node, group, v)
    ensures v !in results && !C.UsedOutside(s0.node, group, v)
  {
    SameMembers(s0, s, results, rule, group);
    var k :| k in group && k in s0.node && v in s0.node[k].outputs;
    if n :| n in s0.node && n !in group && v in s0.node[n].inputs {
      assert Feeds(s0.node, k, n);
      StillUsed(s, group, k, n, v);
    }
  }

  lemma StillUsed(s: Fused, group: set<NodeId>, k: NodeId, n: NodeId, v: ValueId)
    requires forall m :: m in group ==> m in s.outer && m in s.node && s.node[m].op != FusionGroup
    requires k in group && v in s.node[k].outputs && n !in group && StillRead(s, n, v)
    ensures C.UsedOutside(s.node, group, v)
  {
    if f :| f in s.outer && f in s.node && s.node[f].op == FusionGroup && v in s.node[f].inputs {
      assert f !in group;
    }
  }

  lemma RootGroupBefore(s0: Fused, s: Fused, results: set<ValueId>, rule: Rule, group: set<NodeId>)
    requires Evolved(s0, s) && RootGroup(s, results, rule, group) && GroupsNotFusable(rule) && NoCrossing(s0)
    ensures RootGroup(s0, results, rule, group)
  {
    DeclinableBefore(s0, s, results, rule, group);
    SameMembers(s0, s, results, rule, group);
    var a, b :| a in group && b in s.outer && b !in group && Partner(s.node, rule, a, b) && Feeds(s.node, a, b);
    hide StillRead, TakesNothing, Declinable;
    assert s0.node[a] == s.node[a] && s0.node[b] == s.node[b];
    assert Feeds(s0.node, a, b);
  }

  lemma FeederSelected(node: map<NodeId, Node>, cands: set<NodeId>, a: NodeId, b: NodeId)
    requires a in Selection(node, cands) && b in cands && Feeds(node, b, a)
    ensures b in Selection(node, cands)
  {
    hide BehindOf;
    assert b !in BehindOf(node, cands);
    assert a in cands - BehindOf(node, cands);
  }

  /** A selected group that is declined, next to a partner outside, takes nothing in. */
  lemma DeclinedIsRoot(s: Fused, results: set<ValueId>, rule: Rule, base: NodeId, a: NodeId, b: NodeId)
    requires NoCrossing(s) && base in s.outer && Partner(s.node, rule, base, base) && ConstantsAreSources(s.node)
    requires Declinable(s, results, rule, Selection(s.node, ComponentOf(s.node, rule, base)))
    requires a in Selection(s.node, ComponentOf(s.node, rule, base))
    requires b in s.outer && b !in Selection(s.node, ComponentOf(s.node, rule, base))
    requires Partner(s.node, rule, base, b) && Near(s.node, a, b)
    ensures RootGroup(s, results, rule, Selection(s.node, ComponentOf(s.node, rule, base)))
  {
    var k := ComponentOf(s.node, rule, base);
    var group := Selection(s.node, k);
    ComponentPartners(s.node, rule, base);
    hide ComponentOf, BehindOf;
    assert b in k;
    if Feeds(s.node, b, a) { FeederSelected(s.node, k, a, b); }
    var v :| v in s.node[a].outputs && v in s.node[b].inputs;
    assert C.WrittenBy(s.node, group, v) && C.UsedOutside(s.node, group, v);
    assert Partner(s.node, rule, a, b) && Feeds(s.node, a, b);
  }

  // ---- the course of the pass ----

  /** `chainer_fusion_group` of a node; 0 when it has none. */
  ghost function MarkOf(marks: map<NodeId, nat>, n: NodeId): nat {
    if n in marks then marks[n] else 0
  }

  lemma MarkIs(marks: map<NodeId, nat>)
    ensures forall n :: MarkOf(marks, n) == 0 <==> n !in marks || marks[n] == 0
  {
  }

  ghost predicate Unmarked(marks: map<NodeId, nat>, nodes: set<NodeId>) {
    forall n :: n in nodes ==> MarkOf(marks, n) == 0
  }

  /** A node of the graph that may be fused. */
  ghost predicate Candidate(s: Fused, rule: Rule, n: NodeId) {
    n in s.outer && Partner(s.node, rule, n, n)
  }

  /** An unmarked component worth a group has only nodes that are still to be looked at or
      that are left over from a group they started. */
  ghost predicate Spent(s: Fused, marks: map<NodeId, nat>, rule: Rule, todo: set<NodeId>, lone: set<NodeId>) {
    forall n :: Candidate(s, rule, n) && Unmarked(marks, ComponentOf(s.node, rule, n))
                && Worth(s.node, rule, ComponentOf(s.node, rule, n)) ==>
      ComponentOf(s.node, rule, n) <= todo + lone
  }

  /** A node that is in no group, though what is selected of its component holds enough operators
      other than Identity, Constant and Reshape, was left over: by the group that it started, or
      by one of its component that is only marked. */
  ghost predicate RestIsLeftOver(s: Fused, marks: map<NodeId, nat>, rule: Rule, lone: set<NodeId>) {
    forall n :: Candidate(s, rule, n) && (n in marks ==> marks[n] == 0)
                && |Calculating(s.node, Selection(s.node, ComponentOf(s.node, rule, n)))| >= rule.minFuseOps > 0 ==>
      n in lone || HasMarked(marks, ComponentOf(s.node, rule, n))
  }

  ghost predicate HasMarked(marks: map<NodeId, nat>, nodes: set<NodeId>) {
    exists m :: m in nodes && m in marks && marks[m] > 0
  }

  lemma SomeCalculate(node: map<NodeId, Node>, cands: set<NodeId>)
    ensures |Calculating(node, cands)| > 0 ==> cands != {}
  {
    assert Calculating(node, {}) == {};
  }

  lemma SpentLeavesOver(s: Fused, marks: map<NodeId, nat>, rule: Rule, lone: set<NodeId>)
    requires Spent(s, marks, rule, {}, lone)
    ensures RestIsLeftOver(s, marks, rule, lone)
  {
    hide Selection, ComponentOf;
    forall n | Candidate(s, rule, n) && (n in marks ==> marks[n] == 0)
               && |Calculating(s.node, Selection(s.node, ComponentOf(s.node, rule, n)))| >= rule.minFuseOps > 0
      ensures n in lone || HasMarked(marks, ComponentOf(s.node, rule, n))
    {
      var k := ComponentOf(s.node, rule, n);
      if !HasMarked(marks, k) {
        assert Unmarked(marks, k);
        SomeCalculate(s.node, Selection(s.node, k));
        assert k <= lone;
      }
    }
  }

  /** A marked node next to an unmarked partner. */
  ghost predicate Border(s: Fused, marks: map<NodeId, nat>, rule: Rule, a: NodeId, b: NodeId) {
    && Candidate(s, rule, a) && b in s.outer && Partner(s.node, rule, a, b) && Near(s.node, a, b)
    && MarkOf(marks, a) > 0 && MarkOf(marks, b) == 0
  }

  /** A node still to be looked at from which the search meets a marked node. */
  ghost predicate Meets(s: Fused, marks: map<NodeId, nat>, rule: Rule, todo: set<NodeId>, b: NodeId, m: NodeId) {
    && b in todo && Candidate(s, rule, b) && MarkOf(marks, b) == 0
    && m in ComponentOf(s.node, rule, b) && MarkOf(marks, m) > 0
  }

  ghost predicate Doomed(s: Fused, marks: map<NodeId, nat>, rule: Rule, todo: set<NodeId>) {
    exists b, m :: Meets(s, marks, rule, todo, b, m)
  }

  ghost predicate RootExists(s: Fused, results: set<ValueId>, rule: Rule) {
    exists group :: RootGroup(s, results, rule, group)
  }

  ghost predicate DeclinableExists(s: Fused, results: set<ValueId>, rule: Rule) {
    exists group :: Declinable(s, results, rule, group)
  }

  /** What the pass keeps. */
  ghost predicate Course(s0: Fused, results: set<ValueId>, rule: Rule, s: Fused, marks: map<NodeId, nat>,
                         todo: set<NodeId>, lone: set<NodeId>) {
    && Evolved(s0, s) && Spent(s, marks, rule, todo, lone)
    && (forall a, b :: Border(s, marks, rule, a, b) ==> RootExists(s0, results, rule))
    && (forall a :: Candidate(s, rule, a) && MarkOf(marks, a) > 0 ==> DeclinableExists(s0, results, rule))
  }

  lemma ComponentOuter(s: Fused, rule: Rule, n: NodeId)
    requires NoCrossing(s) && Candidate(s, rule, n)
    ensures n in ComponentOf(s.node, rule, n) && ComponentOf(s.node, rule, n) <= s.outer
    ensures forall m :: m in ComponentOf(s.node, rule, n) ==> Candidate(s, rule, m) && Partner(s.node, rule, n, m)
    ensures forall m :: m in ComponentOf(s.node, rule, n) ==>
      ComponentOf(s.node, rule, m) == ComponentOf(s.node, rule, n)
  {
    ComponentPartners(s.node, rule, n);
    assert Joined(s.node, rule, n, s.outer);
    forall m | m in ComponentOf(s.node, rule, n)
      ensures ComponentOf(s.node, rule, m) == ComponentOf(s.node, rule, n)
    {
      SameComponent(s.node, rule, n, m);
    }
  }

  /** Where the search meets a marked node, a marked node is next to an unmarked one. */
  lemma SearchMeetsBorder(s: Fused, marks: map<NodeId, nat>, rule: Rule, base: NodeId)
    requires NoCrossing(s) && Candidate(s, rule, base) && MarkOf(marks, base) == 0
    requires !Unmarked(marks, ComponentOf(s.node, rule, base))
    ensures exists a, b :: Border(s, marks, rule, a, b)
  {
    hide ComponentOf, NoCrossing, Near, Joined, Partner;
    ComponentOuter(s, rule, base);
    var k := ComponentOf(s.node, rule, base);
    var free := set n | n in k && MarkOf(marks, n) == 0;
    if !Joined(s.node, rule, base, free) {
      var b, a := NotJoined(s.node, rule, base, free);
      StaysInComponent(s.node, rule, base, b, a);
      NearBack(s.node, a, b);
      PartnerBack(s, rule, base, a, b);
      assert Border(s, marks, rule, a, b);
    }
  }

  lemma PartnerBack(s: Fused, rule: Rule, base: NodeId, a: NodeId, b: NodeId)
    requires Partner(s.node, rule, base, a) && Partner(s.node, rule, base, b)
    ensures Partner(s.node, rule, a, b)
  {
  }

  lemma NotJoined(node: map<NodeId, Node>, rule: Rule, base: NodeId, cands: set<NodeId>) returns (b: NodeId, a: NodeId)
    requires !Joined(node, rule, base, cands)
    ensures b in cands && Near(node, b, a) && Partner(node, rule, base, a) && a !in cands
  {
    b, a :| b in cands && Near(node, b, a) && Partner(node, rule, base, a) && a !in cands;
  }

  lemma StaysInComponent(node: map<NodeId, Node>, rule: Rule, base: NodeId, b: NodeId, a: NodeId)
    requires b in ComponentOf(node, rule, base) && Near(node, b, a) && Partner(node, rule, base, a)
    ensures a in ComponentOf(node, rule, base)
  {
    hide ComponentOf;
  }

  lemma NearBack(node: map<NodeId, Node>, a: NodeId, b: NodeId)
    requires Near(node, b, a)
    ensures Near(node, a, b)
  {
  }

  /** An unmarked node whose component is unmarked is not one that meets a marked node. */
  lemma MeetsElsewhere(s: Fused, marks: map<NodeId, nat>, rule: Rule, todo: set<NodeId>, base: NodeId, b: NodeId,
                       m: NodeId)
    requires NoCrossing(s) && Candidate(s, rule, base) && Unmarked(marks, ComponentOf(s.node, rule, base))
    requires Meets(s, marks, rule, todo, b, m)
    ensures b !in ComponentOf(s.node, rule, base) && b != base
  {
    ComponentOuter(s, rule, base);
  }

  lemma CourseStart(s: Fused, results: set<ValueId>, rule: Rule, marks: map<NodeId, nat>, list: seq<NodeId>)
    requires SetOf(list) == s.outer && NoCrossing(s) && forall n :: Candidate(s, rule, n) ==> MarkOf(marks, n) == 0
    ensures Course(s, results, rule, s, marks, SetOf(list[0..]), {})
  {
    assert list[0..] == list;
    forall n | Candidate(s, rule, n) ensures ComponentOf(s.node, rule, n) <= s.outer { ComponentOuter(s, rule, n); }
  }

  /** A node of the list that is marked, or is not in the graph or not fusable, is skipped. */
  lemma CourseSkip(s0: Fused, results: set<ValueId>, rule: Rule, s: Fused, marks: map<NodeId, nat>,
                   todo: set<NodeId>, todo': set<NodeId>, lone: set<NodeId>, base: NodeId)
    requires NoCrossing(s) && todo == todo' + {base}
    requires !Candidate(s, rule, base) || MarkOf(marks, base) > 0
    requires Course(s0, results, rule, s, marks, todo, lone)
    ensures Course(s0, results, rule, s, marks, todo', lone)
    ensures Doomed(s, marks, rule, todo) ==> Doomed(s, marks, rule, todo')
  {
    hide Evolved, Worth, RootExists, DeclinableExists, Border;
    forall n | Candidate(s, rule, n) && Unmarked(marks, ComponentOf(s.node, rule, n))
               && Worth(s.node, rule, ComponentOf(s.node, rule, n))
      ensures ComponentOf(s.node, rule, n) <= todo' + lone
    {
      ComponentOuter(s, rule, n);
    }
    if b, m :| Meets(s, marks, rule, todo, b, m) { assert Meets(s, marks, rule, todo', b, m); }
  }

  /** Too little is selected. */
  lemma CourseRefuse(s0: Fused, results: set<ValueId>, rule: Rule, s: Fused, marks: map<NodeId, nat>,
                     todo: set<NodeId>, todo': set<NodeId>, lone: set<NodeId>, base: NodeId)
    requires NoCrossing(s) && todo == todo' + {base} && Candidate(s, rule, base)
    requires Unmarked(marks, ComponentOf(s.node, rule, base)) && !Worth(s.node, rule, ComponentOf(s.node, rule, base))
    requires Course(s0, results, rule, s, marks, todo, lone)
    ensures Course(s0, results, rule, s, marks, todo', lone)
    ensures Doomed(s, marks, rule, todo) ==> Doomed(s, marks, rule, todo')
  {
    hide Evolved, Worth, RootExists, DeclinableExists, Border;
    forall n | Candidate(s, rule, n) && Unmarked(marks, ComponentOf(s.node, rule, n))
               && Worth(s.node, rule, ComponentOf(s.node, rule, n))
      ensures ComponentOf(s.node, rule, n) <= todo' + lone
    {
      ComponentOuter(s, rule, n);
    }
    if b, m :| Meets(s, marks, rule, todo, b, m) {
      MeetsElsewhere(s, marks, rule, todo, base, b, m);
      assert Meets(s, marks, rule, todo', b, m);
    }
  }

  ghost predicate Marked(marks: map<NodeId, nat>, marks': map<NodeId, nat>, group: set<NodeId>) {
    forall n :: if n in group then MarkOf(marks', n) > 0 else MarkOf(marks', n) == MarkOf(marks, n)
  }

  /** A node still to be looked at that the selection around `base` leaves out. */
  ghost predicate LeftOver(s: Fused, rule: Rule, todo: set<NodeId>, base: NodeId) {
    exists b :: b in todo && b in ComponentOf(s.node, rule, base)
      && b !in Selection(s.node, ComponentOf(s.node, rule, base))
  }

  /** The group is marked and not created. */
  lemma CourseDecline(s0: Fused, results: set<ValueId>, rule: Rule, s: Fused, marks: map<NodeId, nat>,
                      marks': map<NodeId, nat>, todo: set<NodeId>, todo': set<NodeId>, lone: set<NodeId>, base: NodeId)
    requires NoCrossing(s0) && NoCrossing(s) && ConstantsAreSources(s.node) && GroupsNotFusable(rule)
    requires todo == todo' + {base} && Candidate(s, rule, base) && Unmarked(marks, ComponentOf(s.node, rule, base))
    requires Marked(marks, marks', Selection(s.node, ComponentOf(s.node, rule, base)))
    requires Declinable(s, results, rule, Selection(s.node, ComponentOf(s.node, rule, base)))
    requires Course(s0, results, rule, s, marks, todo, lone)
    ensures Course(s0, results, rule, s, marks', todo', lone)
    ensures Doomed(s, marks, rule, todo) ==> Doomed(s, marks', rule, todo')
    ensures LeftOver(s, rule, todo', base) ==> Doomed(s, marks', rule, todo')
  {
    hide Evolved, Selection, Declinable, RootGroup, Near, ComponentOf, Spent, Doomed, Border, Candidate, LeftOver,
      NoCrossing,
      ConstantsAreSources, Unmarked;
    var group := Selection(s.node, ComponentOf(s.node, rule, base));
    DeclineMarks(s0, results, rule, s, marks, marks', todo, lone, base);
    SelectionInside(s.node, ComponentOf(s.node, rule, base));
    NonEmptyGroup(s, results, rule, group);
    DeclineSpent(rule, s, marks, marks', todo, todo', lone, base, group);
    DeclineDoomed(rule, s, marks, marks', todo, todo', base, group);
  }

  lemma DeclineSpent(rule: Rule, s: Fused, marks: map<NodeId, nat>, marks': map<NodeId, nat>,
                     todo: set<NodeId>, todo': set<NodeId>, lone: set<NodeId>, base: NodeId, group: set<NodeId>)
    requires NoCrossing(s) && todo == todo' + {base} && Candidate(s, rule, base)
    requires group != {} && group <= ComponentOf(s.node, rule, base) && Unmarked(marks, ComponentOf(s.node, rule, base))
    requires Marked(marks, marks', group) && Spent(s, marks, rule, todo, lone)
    ensures Spent(s, marks', rule, todo', lone)
  {
    hide Candidate, ComponentOf, NoCrossing, Worth;
    ComponentOuter(s, rule, base);
    forall n | Candidate(s, rule, n) && Unmarked(marks', ComponentOf(s.node, rule, n))
               && Worth(s.node, rule, ComponentOf(s.node, rule, n))
      ensures ComponentOf(s.node, rule, n) <= todo' + lone
    {
      ComponentOuter(s, rule, n);
      NotOfBase(s, rule, marks, marks', group, base, n);
    }
  }

  /** A component that is unmarked after the group has been marked is another one, and was unmarked before. */
  lemma NotOfBase(s: Fused, rule: Rule, marks: map<NodeId, nat>, marks': map<NodeId, nat>, group: set<NodeId>,
                  base: NodeId, n: NodeId)
    requires NoCrossing(s) && Candidate(s, rule, base) && Candidate(s, rule, n)
    requires group != {} && group <= ComponentOf(s.node, rule, base) && Marked(marks, marks', group)
    requires Unmarked(marks', ComponentOf(s.node, rule, n))
    ensures Unmarked(marks, ComponentOf(s.node, rule, n)) && base !in ComponentOf(s.node, rule, n)
  {
    hide Candidate, ComponentOf, NoCrossing;
    ComponentOuter(s, rule, base);
    ComponentOuter(s, rule, n);
    var x :| x in group;
    assert MarkOf(marks', x) > 0;
  }

  lemma DeclineDoomed(rule: Rule, s: Fused, marks: map<NodeId, nat>, marks': map<NodeId, nat>,
                      todo: set<NodeId>, todo': set<NodeId>, base: NodeId, group: set<NodeId>)
    requires NoCrossing(s) && todo == todo' + {base} && Candidate(s, rule, base)
    requires group == Selection(s.node, ComponentOf(s.node, rule, base)) != {}
    requires group <= ComponentOf(s.node, rule, base)
    requires Unmarked(marks, ComponentOf(s.node, rule, base)) && Marked(marks, marks', group)
    ensures Doomed(s, marks, rule, todo) ==> Doomed(s, marks', rule, todo')
    ensures LeftOver(s, rule, todo', base) ==> Doomed(s, marks', rule, todo')
  {
    hide Candidate, ComponentOf, NoCrossing, Selection;
    ComponentOuter(s, rule, base);
    var x :| x in group;
    if b, m :| Meets(s, marks, rule, todo, b, m) {
      MeetsElsewhere(s, marks, rule, todo, base, b, m);
      assert Meets(s, marks', rule, todo', b, m);
    }
    if b :| b in todo' && b in ComponentOf(s.node, rule, base) && b !in group {
      assert Meets(s, marks', rule, todo', b, x);
    }
  }

  lemma SelectionInside(node: map<NodeId, Node>, cands: set<NodeId>)
    ensures Selection(node, cands) <= cands
  {
  }

  lemma NonEmptyGroup(s: Fused, results: set<ValueId>, rule: Rule, group: set<NodeId>)
    requires Declinable(s, results, rule, group)
    ensures group != {}
  {
  }

  lemma DeclineMarks(s0: Fused, results: set<ValueId>, rule: Rule, s: Fused, marks: map<NodeId, nat>,
                     marks': map<NodeId, nat>, todo: set<NodeId>, lone: set<NodeId>, base: NodeId)
    requires NoCrossing(s0) && NoCrossing(s) && ConstantsAreSources(s.node) && GroupsNotFusable(rule)
    requires Candidate(s, rule, base)
    requires Marked(marks, marks', Selection(s.node, ComponentOf(s.node, rule, base)))
    requires Declinable(s, results, rule, Selection(s.node, ComponentOf(s.node, rule, base)))
    requires Course(s0, results, rule, s, marks, todo, lone)
    ensures forall a, b :: Border(s, marks', rule, a, b) ==> RootExists(s0, results, rule)
    ensures forall a :: Candidate(s, rule, a) && MarkOf(marks', a) > 0 ==> DeclinableExists(s0, results, rule)
  {
    hide Spent, Evolved, Selection, Declinable, RootGroup, NoCrossing, ConstantsAreSources, Near;
    var group := Selection(s.node, ComponentOf(s.node, rule, base));
    SelectionInside(s.node, ComponentOf(s.node, rule, base));
    ComponentPartners(s.node, rule, base);
    DeclinableBefore(s0, s, results, rule, group);
    forall a, b | Border(s, marks', rule, a, b) ensures RootExists(s0, results, rule) {
      if a in group {
        DeclinedIsRoot(s, results, rule, base, a, b);
        RootGroupBefore(s0, s, results, rule, group);
      } else {
        assert Border(s, marks, rule, a, b);
      }
    }
  }

  /** The group is created. */
  lemma CourseCreate(s0: Fused, results: set<ValueId>, rule: Rule, s: Fused, t: Step, s': Fused,
                     marks: map<NodeId, nat>, marks': map<NodeId, nat>,
                     todo: set<NodeId>, todo': set<NodeId>, lone: set<NodeId>, base: NodeId)
    requires Contracted(s, t, s', rule, base) && t.group == Selection(s.node, ComponentOf(s.node, rule, base))
    requires todo == todo' + {base} && Unmarked(marks, ComponentOf(s.node, rule, base))
    requires Worth(s.node, rule, ComponentOf(s.node, rule, base))
    requires Marked(marks, marks', t.group + {t.fused})
    requires Course(s0, results, rule, s, marks, todo, lone)
    ensures Course(s0, results, rule, s', marks', todo', if base in t.group then lone else lone + {base})
    ensures Doomed(s, marks, rule, todo) ==> Doomed(s', marks', rule, todo')
  {
    hide Contracted, Spent, Evolved, Doomed, Cut, Worth, Border, Selection, ComponentOf;
    EvolvedNext(s0, s, t, s', rule, base);
    ContractedIsCut(s, t, s', rule, base);
    CreateFacts(s, t, s', rule, base);
    CreateSpent(s, t.group, t.fused, s', marks, marks', rule, todo, todo', lone, base);
    CreateDoomed(s, t.group, t.fused, s', marks, marks', rule, todo, todo', base);
    forall a, b | Border(s', marks', rule, a, b) ensures RootExists(s0, results, rule) {
      CreateBorder(s, t.group, t.fused, s', marks, marks', rule, a, b);
    }
    forall a | Candidate(s', rule, a) && MarkOf(marks', a) > 0 ensures DeclinableExists(s0, results, rule) {
      StillCandidate(s, t.group, t.fused, s', rule, a);
    }
  }

  lemma CreateFacts(s: Fused, t: Step, s': Fused, rule: Rule, base: NodeId)
    requires Contracted(s, t, s', rule, base)
    ensures NoCrossing(s) && NoCrossing(s') && GroupsNotFusable(rule) && Candidate(s, rule, base)
    ensures t.group <= ComponentOf(s.node, rule, base)
  {
  }

  /** The new node is no candidate, and the others were candidates before. */
  lemma StillCandidate(s: Fused, group: set<NodeId>, f: NodeId, s': Fused, rule: Rule, n: NodeId)
    requires Cut(s, group, f, s') && GroupsNotFusable(rule) && Candidate(s', rule, n)
    ensures Candidate(s, rule, n) && n !in group && n != f
  {
  }

  lemma CreateBorder(s: Fused, group: set<NodeId>, f: NodeId, s': Fused, marks: map<NodeId, nat>,
                     marks': map<NodeId, nat>, rule: Rule, a: NodeId, b: NodeId)
    requires Cut(s, group, f, s') && GroupsNotFusable(rule) && Marked(marks, marks', group + {f})
    requires Border(s', marks', rule, a, b)
    ensures Border(s, marks, rule, a, b)
  {
    hide Cut;
    StillCandidate(s, group, f, s', rule, a);
    CutNeighbour(s, group, f, s', rule, a, a, b);
  }

  lemma CreateSpent(s: Fused, group: set<NodeId>, f: NodeId, s': Fused, marks: map<NodeId, nat>,
                    marks': map<NodeId, nat>, rule: Rule, todo: set<NodeId>, todo': set<NodeId>, lone: set<NodeId>,
                    base: NodeId)
    requires Cut(s, group, f, s') && NoCrossing(s) && GroupsNotFusable(rule) && Marked(marks, marks', group + {f})
    requires Candidate(s, rule, base) && group <= ComponentOf(s.node, rule, base) && todo == todo' + {base}
    requires Unmarked(marks, ComponentOf(s.node, rule, base)) && Worth(s.node, rule, ComponentOf(s.node, rule, base))
    requires Spent(s, marks, rule, todo, lone)
    ensures Spent(s', marks', rule, todo', if base in group then lone else lone + {base})
  {
    hide Cut, Worth, ComponentOf, NoCrossing;
    var lone' := if base in group then lone else lone + {base};
    forall n | Candidate(s', rule, n) && Unmarked(marks', ComponentOf(s'.node, rule, n))
               && Worth(s'.node, rule, ComponentOf(s'.node, rule, n))
      ensures ComponentOf(s'.node, rule, n) <= todo' + lone'
    {
      StillCandidate(s, group, f, s', rule, n);
      ComponentShrinks(s, group, f, s', rule, n);
      ComponentOuter(s, rule, base);
      if n !in ComponentOf(s.node, rule, base) {
        ComponentStays(s, group, f, s', rule, base, n);
        ComponentOuter(s, rule, n);
        WorthShrinks(s, group, f, s', rule, ComponentOf(s.node, rule, n));
        CutOuterNodes(s, group, f, s');
      }
    }
  }

  lemma CreateDoomed(s: Fused, group: set<NodeId>, f: NodeId, s': Fused, marks: map<NodeId, nat>,
                     marks': map<NodeId, nat>, rule: Rule, todo: set<NodeId>, todo': set<NodeId>, base: NodeId)
    requires Cut(s, group, f, s') && NoCrossing(s) && GroupsNotFusable(rule) && Marked(marks, marks', group + {f})
    requires Candidate(s, rule, base) && group <= ComponentOf(s.node, rule, base) && todo == todo' + {base}
    requires Unmarked(marks, ComponentOf(s.node, rule, base))
    ensures Doomed(s, marks, rule, todo) ==> Doomed(s', marks', rule, todo')
  {
    hide Cut, ComponentOf, NoCrossing;
    if b, m :| Meets(s, marks, rule, todo, b, m) {
      MeetsElsewhere(s, marks, rule, todo, base, b, m);
      ComponentStays(s, group, f, s', rule, base, b);
      CutOuterNodes(s, group, f, s');
      assert Meets(s', marks', rule, todo', b, m);
    }
  }

  /** `list[i]` is the first of its component in the list, the group selected of the component
      takes nothing in, and `list[j]` is left out of it. */
  ghost predicate DoomedAt(s: Fused, list: seq<NodeId>, rule: Rule, i: int, j: int) {
    && 0 <= i < j < |list| && Candidate(s, rule, list[i])
    && var k := ComponentOf(s.node, rule, list[i]);
       && (forall h :: 0 <= h < i ==> list[h] !in k)
       && Worth(s.node, rule, k) && TakesNothing(s.node, Selection(s.node, k))
       && list[j] in k && list[j] !in Selection(s.node, k)
  }

  /** A group that takes nothing in and is worth marking is declined. */
  lemma SelectionIsDeclinable(s: Fused, results: set<ValueId>, rule: Rule, base: NodeId)
    requires NoCrossing(s) && s.outer <= s.node.Keys && Candidate(s, rule, base)
    requires Worth(s.node, rule, ComponentOf(s.node, rule, base))
    requires
      var group := Selection(s.node, ComponentOf(s.node, rule, base));
      TakesNothing(s.node, group) || GivesNothing(s.node, results, group)
    ensures Declinable(s, results, rule, Selection(s.node, ComponentOf(s.node, rule, base)))
  {
    hide ComponentOf, Selection, TakesNothing, GivesNothing;
    ComponentOuter(s, rule, base);
    SelectionInside(s.node, ComponentOf(s.node, rule, base));
  }

  lemma ClassifiedEmpty(node: map<NodeId, Node>, results: set<ValueId>, group: set<NodeId>, inputs: set<ValueId>,
                        outputs: set<ValueId>, temps: set<ValueId>)
    requires C.Classified(node, results, group, inputs, outputs, temps)
    ensures inputs == {} <==> TakesNothing(node, group)
    ensures outputs == {} <==> GivesNothing(node, results, group)
  {
    hide C.ReadBy, C.WrittenBy, C.UsedOutside;
    if inputs != {} { var v :| v in inputs; }
    if outputs != {} { var v :| v in outputs; }
  }

  // ---- the steps of the loop ----

  lemma UnmarkedNone(marks: map<NodeId, nat>)
    ensures Unmarked(marks, {})
  {
  }

  lemma UnmarkedNext(marks: map<NodeId, nat>, nodes: set<NodeId>, n: NodeId)
    requires Unmarked(marks, nodes) && MarkOf(marks, n) == 0
    ensures Unmarked(marks, nodes + {n})
  {
  }

  lemma MarkedMember(marks: map<NodeId, nat>, nodes: set<NodeId>, n: NodeId)
    requires n in nodes && MarkOf(marks, n) != 0
    ensures !Unmarked(marks, nodes)
  {
  }

  /** A node of the list that is not in the graph any more has been marked. */
  ghost predicate GoneAreMarked(s0: Fused, s: Fused, marks: map<NodeId, nat>) {
    forall n :: n in s0.outer ==> n in s.outer || MarkOf(marks, n) > 0
  }

  ghost predicate SameNodes(node: map<NodeId, Node>, other: map<NodeId, Node>, nodes: set<NodeId>) {
    forall n :: n in nodes ==> n in node && n in other && node[n] == other[n]
  }

  /** The component of `base` is as it was at the start, and so is what is selected of it. */
  ghost predicate Waiting(s0: Fused, rule: Rule, s: Fused, marks: map<NodeId, nat>, base: NodeId) {
    && Candidate(s, rule, base) && ComponentOf(s.node, rule, base) == ComponentOf(s0.node, rule, base)
    && var k := ComponentOf(s.node, rule, base);
       && Unmarked(marks, k) && SameNodes(s0.node, s.node, k) && Selection(s.node, k) == Selection(s0.node, k)
  }

  /** Up to `list[first]` its component waits; after it the pass is doomed. */
  ghost predicate OnTheWay(s0: Fused, rule: Rule, s: Fused, marks: map<NodeId, nat>, list: seq<NodeId>, i: int,
                           first: int) {
    if i <= first then 0 <= first < |list| && Waiting(s0, rule, s, marks, list[first])
    else 0 <= i <= |list| && Doomed(s, marks, rule, SetOf(list[i..]))
  }

  lemma TodoNext(list: seq<NodeId>, i: nat)
    requires 0 < i <= |list|
    ensures SetOf(list[i - 1..]) == SetOf(list[i..]) + {list[i - 1]}
  {
    assert list[i - 1..] == [list[i - 1]] + list[i..];
  }

  lemma BaseIs(s0: Fused, s: Fused, marks: map<NodeId, nat>, list: seq<NodeId>, i: nat, rule: Rule)
    requires i < |list| && SetOf(list) == s0.outer && s.outer <= s.node.Keys && GoneAreMarked(s0, s, marks)
    ensures MarkOf(marks, list[i]) == 0 ==>
      list[i] in s.outer && list[i] in s.node && (Candidate(s, rule, list[i]) <==> rule.isFusable(s.node[list[i]]))
  {
    assert list[i] in SetOf(list);
  }

  lemma CourseAborts(s0: Fused, results: set<ValueId>, rule: Rule, s: Fused, marks: map<NodeId, nat>,
                     todo: set<NodeId>, lone: set<NodeId>, base: NodeId)
    requires NoCrossing(s) && Course(s0, results, rule, s, marks, todo, lone)
    requires Candidate(s, rule, base) && MarkOf(marks, base) == 0 && !Unmarked(marks, ComponentOf(s.node, rule, base))
    ensures RootExists(s0, results, rule)
    ensures DeclinableExists(s0, results, rule)
  {
    hide Evolved, Spent, Declinable, ComponentOf, TakesNothing;
    SearchMeetsBorder(s, marks, rule, base);
    var group :| RootGroup(s0, results, rule, group);
    assert Declinable(s0, results, rule, group);
  }

  lemma Created(s0: Fused, results: set<ValueId>, rule: Rule, s: Fused, t: Step, s': Fused,
                marks: map<NodeId, nat>, marks': map<NodeId, nat>, id: nat,
                todo: set<NodeId>, todo': set<NodeId>, lone: set<NodeId>, base: NodeId)
    requires Applicable(s, t) && s' == Fuse(s, t) && t.group == Selection(s.node, ComponentOf(s.node, rule, base))
    requires NoCrossing(s) && NoCrossing(s') && InitializersUnwritten(s) && GroupsNotFusable(rule)
    requires Candidate(s, rule, base) && todo == todo' + {base} && id > 0
    requires Unmarked(marks, ComponentOf(s.node, rule, base)) && !TakesNothing(s.node, t.group)
    requires |Calculating(s.node, t.group)| >= rule.minFuseOps
    requires marks' == (marks + map n | n in t.group :: id)[t.fused := id]
    requires Course(s0, results, rule, s, marks, todo, lone) && GoneAreMarked(s0, s, marks)
    ensures Course(s0, results, rule, s', marks', todo', if base in t.group then lone else lone + {base})
    ensures GoneAreMarked(s0, s', marks')
    ensures Doomed(s, marks, rule, todo) ==> Doomed(s', marks', rule, todo')
  {
    hide Applicable, Course, Doomed, ComponentOf, Selection, Fuse, Calculating, NoCrossing, InitializersUnwritten,
      TakesNothing;
    hide GroupsNotFusable, GoneAreMarked, Partner;
    ApplicableParts(s, t);
    SelectionInside(s.node, ComponentOf(s.node, rule, base));
    TakesSomething(s.node, t.group);
    assert Marked(marks, marks', t.group + {t.fused});
    CreatedGone(s0, s, t, s', marks, marks');
    CourseCreate(s0, results, rule, s, t, s', marks, marks', todo, todo', lone, base);
  }

  lemma TakesSomething(node: map<NodeId, Node>, group: set<NodeId>)
    requires !TakesNothing(node, group)
    ensures group != {}
  {
  }

  lemma CreatedGone(s0: Fused, s: Fused, t: Step, s': Fused, marks: map<NodeId, nat>, marks': map<NodeId, nat>)
    requires Applicable(s, t) && t.taken.Keys <= t.names.Keys && s' == Fuse(s, t)
    requires Marked(marks, marks', t.group + {t.fused}) && GoneAreMarked(s0, s, marks)
    ensures GoneAreMarked(s0, s', marks')
  {
    hide Applicable, Fuse;
    CutOuter(s, t);
  }

  lemma Declined(s0: Fused, results: set<ValueId>, rule: Rule, s: Fused,
                 marks: map<NodeId, nat>, marks': map<NodeId, nat>, id: nat,
                 todo: set<NodeId>, todo': set<NodeId>, lone: set<NodeId>, base: NodeId)
    requires NoCrossing(s0) && NoCrossing(s) && ConstantsAreSources(s.node) && s.outer <= s.node.Keys
    requires GroupsNotFusable(rule)
    requires Candidate(s, rule, base) && todo == todo' + {base} && id > 0
    requires Unmarked(marks, ComponentOf(s.node, rule, base))
    requires
      var group := Selection(s.node, ComponentOf(s.node, rule, base));
      && (TakesNothing(s.node, group) || GivesNothing(s.node, results, group))
      && |Calculating(s.node, group)| >= rule.minFuseOps && marks' == marks + map n | n in group :: id
    requires Course(s0, results, rule, s, marks, todo, lone) && GoneAreMarked(s0, s, marks)
    ensures Course(s0, results, rule, s, marks', todo', lone)
    ensures GoneAreMarked(s0, s, marks')
    ensures Doomed(s, marks, rule, todo) ==> Doomed(s, marks', rule, todo')
    ensures Worth(s.node, rule, ComponentOf(s.node, rule, base)) && LeftOver(s, rule, todo', base) ==>
      Doomed(s, marks', rule, todo')
  {
    hide Course, Doomed, ComponentOf, Selection, Calculating, TakesNothing, GivesNothing, ConstantsAreSources,
      NoCrossing;
    var group := Selection(s.node, ComponentOf(s.node, rule, base));
    if group == {} {
      assert marks' == marks;
      CourseRefuse(s0, results, rule, s, marks, todo, todo', lone, base);
    } else {
      SelectionIsDeclinable(s, results, rule, base);
      assert Marked(marks, marks', group);
      CourseDecline(s0, results, rule, s, marks, marks', todo, todo', lone, base);
    }
  }

  lemma LoneSize(lone: set<NodeId>, base: NodeId, s: Fused, t: Step)
    requires Applicable(s, t) && t.taken.Keys <= t.names.Keys
    ensures |if base in t.group then lone else lone + {base}| <= |lone| + 1
    ensures |Fuse(s, t).subgraph| == |s.subgraph| + 1
  {
    assert t.fused !in s.subgraph;
    hide Applicable;
    FuseParts(s, t) by { ApplicableParts(s, t); }
    assert Fuse(s, t).subgraph.Keys == s.subgraph.Keys + {t.fused};
  }

  // ---- the component that waits for its turn ----

  /** What reads nothing from outside is not behind the component, however the rest is contracted. */
  lemma ClosedNotBehind(s: Fused, group: set<NodeId>, f: NodeId, s': Fused, k: set<NodeId>)
    requires Cut(s, group, f, s') && UniqueWriter(s'.node) && k <= s.outer && k !! group
    requires TakesNothing(s.node, Selection(s.node, k))
    ensures Selection(s.node, k) !! BehindOf(s'.node, k)
  {
    var closed := Selection(s.node, k);
    var others := s'.node.Keys - closed;
    SelectionInside(s.node, k);
    CutOuterNodes(s, group, f, s');
    hide Selection, Cut, BehindOf;
    forall a, b | a in s'.node && b in closed && Feeds(s'.node, a, b) ensures a in closed {
      var v :| v in s'.node[a].outputs && v in s'.node[b].inputs;
      assert C.ReadBy(s.node, closed, v);
      var c :| c in closed && c in s.node && v in s.node[c].outputs;
      assert v in s'.node[c].outputs;
    }
    assert Behind(s'.node, k, others);
    BehindIsLeast(s'.node, k, others);
  }

  lemma SelectionIs(node: map<NodeId, Node>, cands: set<NodeId>, n: NodeId)
    ensures
      n in Selection(node, cands) <==>
      && n in cands && n !in BehindOf(node, cands) && n in node
      && (node[n].op.Constant? ==> exists u :: u in cands && u !in BehindOf(node, cands) && Feeds(node, n, u))
  {
    hide BehindOf;
    var rest := cands - BehindOf(node, cands);
    if n in Selection(node, cands) && node[n].op.Constant? {
      var u :| u in rest && Feeds(node, n, u);
    }
    if u :| u in cands && u !in BehindOf(node, cands) && Feeds(node, n, u) { assert u in rest; }
  }

  /** A selection that takes nothing in stays as it is when a group is formed elsewhere. */
  lemma SelectionStays(s: Fused, group: set<NodeId>, f: NodeId, s': Fused, k: set<NodeId>)
    requires Cut(s, group, f, s') && UniqueWriter(s'.node) && ConstantsAreSources(s.node) && k <= s.outer && k !! group
    requires TakesNothing(s.node, Selection(s.node, k))
    ensures Selection(s'.node, k) == Selection(s.node, k)
  {
    hide Cut, UniqueWriter, Selection, BehindOf, TakesNothing;
    SelectionShrinks(s, group, f, s', k);
    ClosedNotBehind(s, group, f, s', k);
    CutOuterNodes(s, group, f, s');
    forall n | n in Selection(s.node, k) ensures n in Selection(s'.node, k) {
      SelectionIs(s.node, k, n);
      SelectionIs(s'.node, k, n);
      if s.node[n].op.Constant? {
        var u :| u in k && u !in BehindOf(s.node, k) && Feeds(s.node, n, u);
        SelectionIs(s.node, k, u);
        assert Feeds(s'.node, n, u);
      }
    }
  }

  lemma WaitsSame(s0: Fused, rule: Rule, s: Fused, marks: map<NodeId, nat>, base: NodeId)
    requires Waiting(s0, rule, s, marks, base)
    ensures
      var k := ComponentOf(s.node, rule, base);
      && Candidate(s, rule, base) && Unmarked(marks, k) && k == ComponentOf(s0.node, rule, base)
      && SameNodes(s0.node, s.node, k) && Selection(s.node, k) == Selection(s0.node, k)
  {
    hide Candidate, ComponentOf, Unmarked, SameNodes, Selection;
  }

  lemma SameTakes(node: map<NodeId, Node>, other: map<NodeId, Node>, group: set<NodeId>)
    requires SameNodes(node, other, group) && TakesNothing(node, group)
    ensures TakesNothing(other, group)
  {
    forall v | C.ReadBy(other, group, v) ensures C.WrittenBy(other, group, v) {
      assert C.ReadBy(node, group, v);
    }
  }

  /** A group formed elsewhere changes nothing for the component that waits. */
  lemma WaitsThroughCut(s0: Fused, rule: Rule, s: Fused, group: set<NodeId>, f: NodeId, s': Fused,
                        marks: map<NodeId, nat>, marks': map<NodeId, nat>, base: NodeId, n: NodeId)
    requires Waiting(s0, rule, s, marks, n)
    requires TakesNothing(s0.node, Selection(s0.node, ComponentOf(s0.node, rule, n)))
    requires Cut(s, group, f, s') && GroupsNotFusable(rule) && NoCrossing(s) && Marked(marks, marks', group + {f})
    requires Candidate(s, rule, base) && group <= ComponentOf(s.node, rule, base)
    requires base !in ComponentOf(s.node, rule, n)
    requires UniqueWriter(s'.node) && ConstantsAreSources(s.node)
    ensures Waiting(s0, rule, s', marks', n)
  {
    hide Waiting, Cut, Selection, UniqueWriter, TakesNothing, ConstantsAreSources, ComponentOf, NoCrossing,
      GroupsNotFusable;
    WaitsSame(s0, rule, s, marks, n);
    var k := ComponentOf(s.node, rule, n);
    ComponentOuter(s, rule, base);
    ComponentOuter(s, rule, n);
    ComponentStays(s, group, f, s', rule, base, n);
    SelectionInside(s.node, k);
    assert SameNodes(s0.node, s.node, Selection(s.node, k));
    SameTakes(s0.node, s.node, Selection(s.node, k));
    SelectionStays(s, group, f, s', k);
    CutOuterNodes(s, group, f, s');
    WaitsStill(s0, rule, s', marks', n);
  }

  lemma WaitsStill(s0: Fused, rule: Rule, s: Fused, marks: map<NodeId, nat>, base: NodeId)
    requires Candidate(s, rule, base) && ComponentOf(s.node, rule, base) == ComponentOf(s0.node, rule, base)
    requires
      var k := ComponentOf(s.node, rule, base);
      Unmarked(marks, k) && SameNodes(s0.node, s.node, k) && Selection(s.node, k) == Selection(s0.node, k)
    ensures Waiting(s0, rule, s, marks, base)
  {
    hide Candidate, ComponentOf, Unmarked, SameNodes, Selection;
  }

  /** Marks elsewhere change nothing either. */
  lemma WaitsThroughMarks(s0: Fused, rule: Rule, s: Fused, marks: map<NodeId, nat>, marks': map<NodeId, nat>,
                          group: set<NodeId>, base: NodeId, n: NodeId)
    requires Waiting(s0, rule, s, marks, n) && Marked(marks, marks', group) && NoCrossing(s)
    requires Candidate(s, rule, base) && group <= ComponentOf(s.node, rule, base)
    requires base !in ComponentOf(s.node, rule, n)
    ensures Waiting(s0, rule, s, marks', n)
  {
    hide Waiting, Selection, ComponentOf, NoCrossing, SameNodes;
    WaitsSame(s0, rule, s, marks, n);
    ComponentOuter(s, rule, base);
    ComponentOuter(s, rule, n);
    WaitsStill(s0, rule, s, marks', n);
  }

  /** What the component is when its turn comes. */
  lemma WaitsUntil(s0: Fused, rule: Rule, s: Fused, marks: map<NodeId, nat>, list: seq<NodeId>, first: int, last: int)
    requires DoomedAt(s0, list, rule, first, last) && Waiting(s0, rule, s, marks, list[first])
    ensures LeftOver(s, rule, SetOf(list[first + 1..]), list[first])
    ensures Worth(s.node, rule, ComponentOf(s.node, rule, list[first]))
    ensures TakesNothing(s.node, Selection(s.node, ComponentOf(s.node, rule, list[first])))
  {
    hide ComponentOf, Selection, TakesNothing, Candidate, Unmarked, Calculating;
    var k := ComponentOf(s.node, rule, list[first]);
    SelectionInside(s.node, k);
    assert SameNodes(s0.node, s.node, Selection(s.node, k));
    SameTakes(s0.node, s.node, Selection(s.node, k));
    FewerCalculate(s.node, s0.node, Selection(s.node, k), Selection(s.node, k));
    assert list[first + 1..][last - (first + 1)] == list[last];
  }

  // ---- the way to the abort ----

  /** While the component waits, what is looked at is not of it. */
  lemma WayOpen(s0: Fused, rule: Rule, s: Fused, marks: map<NodeId, nat>, list: seq<NodeId>, i: nat, first: int,
                last: int)
    requires i < first && DoomedAt(s0, list, rule, first, last) && OnTheWay(s0, rule, s, marks, list, i, first)
    ensures i < first < |list| && Waiting(s0, rule, s, marks, list[first])
    ensures list[i] !in ComponentOf(s.node, rule, list[first])
    ensures TakesNothing(s0.node, Selection(s0.node, ComponentOf(s0.node, rule, list[first])))
  {
    hide ComponentOf, Selection, TakesNothing, Worth, Candidate, Unmarked;
  }

  /** A candidate is looked at, from `list[first]` on. */
  lemma WayNext(s0: Fused, rule: Rule, s: Fused, marks: map<NodeId, nat>,
                s': Fused, marks': map<NodeId, nat>, list: seq<NodeId>, i: nat, first: int, last: int)
    requires 0 < i <= |list| && Candidate(s, rule, list[i - 1])
    requires first >= 0 ==> DoomedAt(s0, list, rule, first, last) && OnTheWay(s0, rule, s, marks, list, i - 1, first)
    requires i <= first < |list| ==> Waiting(s0, rule, s', marks', list[first])
    requires Doomed(s, marks, rule, SetOf(list[i - 1..])) ==> Doomed(s', marks', rule, SetOf(list[i..]))
    requires
      var k := ComponentOf(s.node, rule, list[i - 1]);
      Worth(s.node, rule, k) && TakesNothing(s.node, Selection(s.node, k)) && LeftOver(s, rule, SetOf(list[i..]),
            list[i - 1]) ==>
        Doomed(s', marks', rule, SetOf(list[i..]))
    ensures first >= 0 ==> OnTheWay(s0, rule, s', marks', list, i, first)
  {
    hide Doomed, ComponentOf, Selection, TakesNothing, Worth, DoomedAt, LeftOver, Waiting;
    if first >= 0 {
      DoomedInList(s0, list, rule, first, last);
      if i - 1 == first { WaitsUntil(s0, rule, s, marks, list, first, last); }
    }
  }

  lemma DoomedInList(s: Fused, list: seq<NodeId>, rule: Rule, first: int, last: int)
    requires DoomedAt(s, list, rule, first, last)
    ensures 0 <= first < |list|
  {
  }

  lemma WayStarts(s0: Fused, rule: Rule, marks: map<NodeId, nat>, list: seq<NodeId>, first: int, last: int)
    requires NoCrossing(s0) && s0.outer <= s0.node.Keys && forall n :: Candidate(s0, rule, n) ==> MarkOf(marks, n) == 0
    requires first >= 0 ==> DoomedAt(s0, list, rule, first, last)
    ensures GoneAreMarked(s0, s0, marks)
    ensures first >= 0 ==> OnTheWay(s0, rule, s0, marks, list, 0, first)
  {
    hide ComponentOf, Selection, TakesNothing, Worth, NoCrossing;
    if first >= 0 { ComponentOuter(s0, rule, list[first]); }
  }

  lemma WaySkipped(s0: Fused, rule: Rule, s: Fused, marks: map<NodeId, nat>, list: seq<NodeId>, i: nat, first: int,
                   last: int)
    requires 0 < i <= |list| && (!Candidate(s, rule, list[i - 1]) || MarkOf(marks, list[i - 1]) > 0)
    requires first >= 0 ==> DoomedAt(s0, list, rule, first, last) && OnTheWay(s0, rule, s, marks, list, i - 1, first)
    requires Doomed(s, marks, rule, SetOf(list[i - 1..])) ==> Doomed(s, marks, rule, SetOf(list[i..]))
    ensures first >= 0 ==> OnTheWay(s0, rule, s, marks, list, i, first)
  {
    hide Doomed, DoomedAt, Waiting, Candidate;
    if i - 1 <= first { WaitsFree(s0, rule, s, marks, list[first]); }
  }

  lemma WaitsFree(s0: Fused, rule: Rule, s: Fused, marks: map<NodeId, nat>, base: NodeId)
    requires Waiting(s0, rule, s, marks, base)
    ensures Candidate(s, rule, base) && MarkOf(marks, base) == 0
  {
    assert base in ComponentOf(s.node, rule, base);
  }

  lemma WayEnds(s0: Fused, rule: Rule, s: Fused, marks: map<NodeId, nat>, list: seq<NodeId>, first: int, last: int)
    requires first >= 0 ==> DoomedAt(s0, list, rule, first, last) && OnTheWay(s0, rule, s, marks, list, |list|, first)
    ensures first < 0
  {
    hide ComponentOf, Selection, TakesNothing, Worth;
  }

  lemma CourseEnds(s0: Fused, results: set<ValueId>, rule: Rule, s: Fused, marks: map<NodeId, nat>, list: seq<NodeId>,
                   lone: set<NodeId>)
    requires Course(s0, results, rule, s, marks, SetOf(list[|list|..]), lone)
    ensures Spent(s, marks, rule, {}, lone)
    ensures !DeclinableExists(s0, results, rule) ==> forall n :: Candidate(s, rule, n) ==> MarkOf(marks, n) == 0
  {
    hide Evolved, Spent, DeclinableExists, Candidate;
    assert list[|list|..] == [];
    assert SetOf(list[|list|..]) == {};
  }

  /** All that the loop keeps; `list[i..]` is still to be looked at. */
  ghost predicate Going(s0: Fused, rule: Rule, results: set<ValueId>, s: Fused,
                        marks: map<NodeId, nat>, list: seq<NodeId>, i: int, lone: set<NodeId>, first: int, last: int) {
    && 0 <= i <= |list| && SetOf(list) == s0.outer && NoCrossing(s0)
    && Course(s0, results, rule, s, marks, SetOf(list[i..]), lone) && GoneAreMarked(s0, s, marks)
    && |lone| + |s0.subgraph| <= |s.subgraph|
    && (first >= 0 ==> DoomedAt(s0, list, rule, first, last) && OnTheWay(s0, rule, s, marks, list, i, first))
  }

  lemma FirstDoomed(s: Fused, list: seq<NodeId>, rule: Rule) returns (first: int, last: int)
    ensures first >= 0 ==> DoomedAt(s, list, rule, first, last)
    ensures first < 0 ==> forall i, j :: !DoomedAt(s, list, rule, i, j)
  {
    first, last := -1, -1;
    if i, j :| DoomedAt(s, list, rule, i, j) { first, last := i, j; }
  }

  lemma GoingStarts(s0: Fused, rule: Rule, results: set<ValueId>, marks: map<NodeId, nat>, list: seq<NodeId>,
                    first: int, last: int)
    requires SetOf(list) == s0.outer <= s0.node.Keys && NoCrossing(s0)
    requires forall n :: Candidate(s0, rule, n) ==> MarkOf(marks, n) == 0
    requires first >= 0 ==> DoomedAt(s0, list, rule, first, last)
    ensures Going(s0, rule, results, s0, marks, list, 0, {}, first, last)
  {
    hide DoomedAt, Course, NoCrossing, Candidate, OnTheWay, GoneAreMarked;
    CourseStart(s0, results, rule, marks, list);
    WayStarts(s0, rule, marks, list, first, last);
  }

  lemma GoingBase(s0: Fused, rule: Rule, results: set<ValueId>, s: Fused,
                  marks: map<NodeId, nat>, list: seq<NodeId>, i: nat, lone: set<NodeId>, first: int, last: int)
    requires 0 < i <= |list| && s.outer <= s.node.Keys
    requires Going(s0, rule, results, s, marks, list, i - 1, lone, first, last)
    ensures NoCrossing(s0) && list[i - 1] in s0.outer
    ensures MarkOf(marks, list[i - 1]) == 0 ==>
      list[i - 1] in s.node && (Candidate(s, rule, list[i - 1]) <==> rule.isFusable(s.node[list[i - 1]]))
  {
    hide DoomedAt, Course, NoCrossing, OnTheWay;
    assert list[i - 1] in SetOf(list);
    BaseIs(s0, s, marks, list, i - 1, rule);
  }

  lemma GoingSkips(s0: Fused, rule: Rule, results: set<ValueId>, s: Fused,
                   marks: map<NodeId, nat>, list: seq<NodeId>, i: nat, lone: set<NodeId>, first: int, last: int)
    requires 0 < i <= |list| && NoCrossing(s) && (!Candidate(s, rule, list[i - 1]) || MarkOf(marks, list[i - 1]) > 0)
    requires Going(s0, rule, results, s, marks, list, i - 1, lone, first, last)
    ensures Going(s0, rule, results, s, marks, list, i, lone, first, last)
  {
    hide DoomedAt, Course, NoCrossing, OnTheWay, Candidate, Doomed, GoneAreMarked, SetOf;
    TodoNext(list, i);
    CourseSkip(s0, results, rule, s, marks, SetOf(list[i - 1..]), SetOf(list[i..]), lone, list[i - 1]);
    WaySkipped(s0, rule, s, marks, list, i, first, last);
  }

  lemma GoingAborts(s0: Fused, rule: Rule, results: set<ValueId>, s: Fused,
                    marks: map<NodeId, nat>, list: seq<NodeId>, i: nat, lone: set<NodeId>, first: int, last: int)
    requires 0 < i <= |list| && NoCrossing(s) && Candidate(s, rule, list[i - 1]) && MarkOf(marks, list[i - 1]) == 0
    requires !Unmarked(marks, ComponentOf(s.node, rule, list[i - 1]))
    requires Going(s0, rule, results, s, marks, list, i - 1, lone, first, last)
    ensures RootExists(s0, results, rule) && DeclinableExists(s0, results, rule)
  {
    hide DoomedAt, Course, NoCrossing, OnTheWay, Candidate, Unmarked, ComponentOf, GoneAreMarked;
    CourseAborts(s0, results, rule, s, marks, SetOf(list[i - 1..]), lone, list[i - 1]);
  }

  lemma GoingRefuses(s0: Fused, rule: Rule, results: set<ValueId>, s: Fused,
                     marks: map<NodeId, nat>, list: seq<NodeId>, i: nat, lone: set<NodeId>, first: int, last: int)
    requires 0 < i <= |list| && NoCrossing(s) && Candidate(s, rule, list[i - 1])
    requires
      var k := ComponentOf(s.node, rule, list[i - 1]);
      Unmarked(marks, k) && |Calculating(s.node, Selection(s.node, k))| < rule.minFuseOps
    requires Going(s0, rule, results, s, marks, list, i - 1, lone, first, last)
    ensures Going(s0, rule, results, s, marks, list, i, lone, first, last)
  {
    hide DoomedAt, Course, NoCrossing, OnTheWay, Candidate, Doomed, Unmarked, ComponentOf, Selection, Worth,
      GoneAreMarked, SetOf, TakesNothing;
    TodoNext(list, i);
    NotWorth(s.node, rule, ComponentOf(s.node, rule, list[i - 1]));
    CourseRefuse(s0, results, rule, s, marks, SetOf(list[i - 1..]), SetOf(list[i..]), lone, list[i - 1]);
    if i <= first { WayOpen(s0, rule, s, marks, list, i - 1, first, last); }
    WayNext(s0, rule, s, marks, s, marks, list, i, first, last);
  }

  lemma GoingDeclines(s0: Fused, rule: Rule, results: set<ValueId>, s: Fused,
                      marks: map<NodeId, nat>, marks': map<NodeId, nat>, id: nat, list: seq<NodeId>, i: nat,
                      lone: set<NodeId>, first: int, last: int)
    requires 0 < i <= |list| && NoCrossing(s) && Candidate(s, rule, list[i - 1]) && id > 0
    requires ConstantsAreSources(s.node) && s.outer <= s.node.Keys && GroupsNotFusable(rule)
    requires Unmarked(marks, ComponentOf(s.node, rule, list[i - 1]))
    requires
      var group := Selection(s.node, ComponentOf(s.node, rule, list[i - 1]));
      && (TakesNothing(s.node, group) || GivesNothing(s.node, results, group))
      && |Calculating(s.node, group)| >= rule.minFuseOps && marks' == marks + map n | n in group :: id
    requires Going(s0, rule, results, s, marks, list, i - 1, lone, first, last)
    ensures Going(s0, rule, results, s, marks', list, i, lone, first, last)
  {
    hide DoomedAt, Course, NoCrossing, OnTheWay, Candidate, Doomed, Unmarked, ComponentOf, Selection, Worth,
      GoneAreMarked, SetOf,
      TakesNothing, GivesNothing, ConstantsAreSources, LeftOver, GroupsNotFusable, Calculating;
    TodoNext(list, i);
    Declined(s0, results, rule, s, marks, marks', id, SetOf(list[i - 1..]), SetOf(list[i..]), lone, list[i - 1]);
    if i <= first {
      WayOpen(s0, rule, s, marks, list, i - 1, first, last);
      GroupIsMarked(s.node, ComponentOf(s.node, rule, list[i - 1]), marks, marks', id);
      WaitsThroughMarks(s0, rule, s, marks, marks', Selection(s.node, ComponentOf(s.node, rule, list[i - 1])),
                        list[i - 1], list[first]);
    }
    WayNext(s0, rule, s, marks, s, marks', list, i, first, last);
  }

  lemma GroupIsMarked(node: map<NodeId, Node>, cands: set<NodeId>, marks: map<NodeId, nat>, marks': map<NodeId, nat>,
                      id: nat)
    requires id > 0 && marks' == marks + map n | n in Selection(node, cands) :: id
    ensures Marked(marks, marks', Selection(node, cands)) && Selection(node, cands) <= cands
  {
    SelectionInside(node, cands);
    hide Selection;
  }

  lemma WaitsThroughCreation(s0: Fused, rule: Rule, s: Fused, t: Step, s': Fused, marks: map<NodeId, nat>,
                             marks': map<NodeId, nat>, id: nat, base: NodeId, n: NodeId)
    requires Waiting(s0, rule, s, marks, n)
    requires TakesNothing(s0.node, Selection(s0.node, ComponentOf(s0.node, rule, n)))
    requires Applicable(s, t) && t.taken.Keys <= t.names.Keys && s' == Fuse(s, t)
    requires t.group == Selection(s.node, ComponentOf(s.node, rule, base))
    requires NoCrossing(s) && NoCrossing(s') && InitializersUnwritten(s) && GroupsNotFusable(rule)
    requires UniqueWriter(s'.node) && ConstantsAreSources(s.node)
    requires Candidate(s, rule, base) && base !in ComponentOf(s.node, rule, n) && id > 0
    requires marks' == (marks + map n | n in t.group :: id)[t.fused := id]
    ensures Waiting(s0, rule, s', marks', n)
  {
    SelectionInside(s.node, ComponentOf(s.node, rule, base));
    hide Waiting, Selection, ComponentOf, Applicable, Fuse, UniqueWriter, ConstantsAreSources, NoCrossing, TakesNothing,
      GroupsNotFusable, InitializersUnwritten;
    assert Marked(marks, marks', t.group + {t.fused});
    ContractedIsCut(s, t, s', rule, base);
    WaitsThroughCut(s0, rule, s, t.group, t.fused, s', marks, marks', base, n);
  }

  lemma WaitsOn(s0: Fused, rule: Rule, s: Fused, t: Step, s': Fused, marks: map<NodeId, nat>, marks': map<NodeId, nat>,
                id: nat, list: seq<NodeId>, i: nat, first: int, last: int)
    requires 0 < i <= |list| && Candidate(s, rule, list[i - 1]) && id > 0
    requires first >= 0 ==> DoomedAt(s0, list, rule, first, last) && OnTheWay(s0, rule, s, marks, list, i - 1, first)
    requires Applicable(s, t) && t.taken.Keys <= t.names.Keys && s' == Fuse(s, t)
    requires t.group == Selection(s.node, ComponentOf(s.node, rule, list[i - 1]))
    requires NoCrossing(s) && NoCrossing(s') && InitializersUnwritten(s) && GroupsNotFusable(rule)
    requires UniqueWriter(s'.node) && ConstantsAreSources(s.node)
    requires marks' == (marks + map n | n in t.group :: id)[t.fused := id]
    ensures i <= first < |list| ==> Waiting(s0, rule, s', marks', list[first])
  {
    hide *;
    if i <= first {
      WayOpen(s0, rule, s, marks, list, i - 1, first, last);
      WaitsThroughCreation(s0, rule, s, t, s', marks, marks', id, list[i - 1], list[first]);
    }
  }

  lemma GoingCreates(s0: Fused, rule: Rule, results: set<ValueId>, s: Fused, t: Step, s': Fused,
                     marks: map<NodeId, nat>, marks': map<NodeId, nat>, id: nat, list: seq<NodeId>, i: nat,
                     lone: set<NodeId>, first: int, last: int)
    requires 0 < i <= |list| && NoCrossing(s) && Candidate(s, rule, list[i - 1]) && id > 0
    requires NoCrossing(s') && InitializersUnwritten(s) && GroupsNotFusable(rule)
    requires UniqueWriter(s'.node) && ConstantsAreSources(s.node)
    requires Unmarked(marks, ComponentOf(s.node, rule, list[i - 1]))
    requires Applicable(s, t) && t.taken.Keys <= t.names.Keys && s' == Fuse(s, t)
    requires t.group == Selection(s.node, ComponentOf(s.node, rule, list[i - 1])) && !TakesNothing(s.node, t.group)
    requires |Calculating(s.node, t.group)| >= rule.minFuseOps
    requires marks' == (marks + map n | n in t.group :: id)[t.fused := id]
    requires Going(s0, rule, results, s, marks, list, i - 1, lone, first, last)
    ensures Going(s0, rule, results, s', marks', list, i, if list[i - 1] in t.group then lone else lone + {list[i - 1]},
                  first, last)
  {
    hide DoomedAt, Course, NoCrossing, OnTheWay, Candidate, Doomed, Unmarked, ComponentOf, Selection, Worth,
      GoneAreMarked, SetOf,
      TakesNothing, InitializersUnwritten, LeftOver, GroupsNotFusable, Calculating, Applicable, Fuse, Waiting,
        UniqueWriter,
      ConstantsAreSources;
    TodoNext(list, i);
    Created(s0, results, rule, s, t, s', marks, marks', id, SetOf(list[i - 1..]), SetOf(list[i..]), lone, list[i - 1]);
    LoneSize(lone, list[i - 1], s, t);
    WaitsOn(s0, rule, s, t, s', marks, marks', id, list, i, first, last);
    WayNext(s0, rule, s, marks, s', marks', list, i, first, last);
  }

  lemma GoingEnds(s0: Fused, rule: Rule, results: set<ValueId>, s: Fused,
                  marks: map<NodeId, nat>, list: seq<NodeId>, lone: set<NodeId>, first: int, last: int)
    requires Going(s0, rule, results, s, marks, list, |list|, lone, first, last)
    ensures first < 0 && Spent(s, marks, rule, {}, lone) && |lone| + |s0.subgraph| <= |s.subgraph|
    ensures !DeclinableExists(s0, results, rule) ==> forall n :: Candidate(s, rule, n) ==> MarkOf(marks, n) == 0
  {
    hide DoomedAt, Course, NoCrossing, OnTheWay, Candidate, Doomed, Spent, GoneAreMarked;
    CourseEnds(s0, results, rule, s, marks, list, lone);
    WayEnds(s0, rule, s, marks, list, first, last);
  }
}
