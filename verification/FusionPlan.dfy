/** compiler/fusion.cc, `FuseAllConnectedNodes`, told by the first graph alone: which groups are
    created, which are only marked, and whether the pass aborts. */
module FusionPlan {
  import opened Ir
  import opened Renaming
  import opened FusionCandidates
  import opened FusionMeaning
  import opened FusionChoice
  import C = ClassifyValues

  /** `groups` have been created, `marked` nodes belong to groups that have not. */
  datatype Plan = Plan(groups: set<set<NodeId>>, marked: set<NodeId>, aborted: bool)

  ghost predicate InGroup(groups: set<set<NodeId>>, n: NodeId) {
    exists g :: g in groups && n in g
  }

  ghost predicate Together(groups: set<set<NodeId>>, a: NodeId, b: NodeId) {
    exists g :: g in groups && a in g && b in g
  }

  /** The nodes of the graph that are in no group yet. */
  ghost function LeftOf(s: Fused, groups: set<set<NodeId>>): map<NodeId, Node> {
    map n | n in s.outer && n in s.node && !InGroup(groups, n) :: s.node[n]
  }

  /** Behind the candidates, when what is behind one node of a group is behind all of it. */
  ghost predicate Onward(node: map<NodeId, Node>, groups: set<set<NodeId>>, cands: set<NodeId>, nodes: set<NodeId>) {
    && Behind(node, cands, nodes)
    && forall a, b :: a in nodes && Together(groups, a, b) ==> b in nodes
  }

  ghost function BehindAll(node: map<NodeId, Node>, groups: set<set<NodeId>>, cands: set<NodeId>): set<NodeId> {
    set n | n in node && forall nodes: set<NodeId> | Onward(node, groups, cands, nodes) :: n in nodes
  }

  /** What is selected of the candidates once the groups have been created. */
  ghost function Chosen(node: map<NodeId, Node>, groups: set<set<NodeId>>, cands: set<NodeId>): set<NodeId> {
    WithoutUnused(node, cands - BehindAll(node, groups, cands))
  }

  /** A node of the list is looked at. */
  ghost function Planned(s: Fused, results: set<ValueId>, rule: Rule, p: Plan, n: NodeId): Plan {
    if p.aborted || n in p.marked || InGroup(p.groups, n) || !Candidate(s, rule, n) then p else
      var k := ComponentOf(LeftOf(s, p.groups), rule, n);
      var group := Chosen(s.node, p.groups, k);
      if !(k !! p.marked) then p.(aborted := true)
      else if |Calculating(s.node, group)| < rule.minFuseOps then p
      else if TakesNothing(s.node, group) || GivesNothing(s.node, results, group) then
        p.(marked := p.marked + group)
      else p.(groups := p.groups + {group})
  }

  ghost function Plans(s: Fused, results: set<ValueId>, rule: Rule, list: seq<NodeId>): Plan {
    if list == [] then Plan({}, {}, false)
    else Planned(s, results, rule, Plans(s, results, rule, list[..|list| - 1]), list[|list| - 1])
  }

  /** Before any group is formed, a selection is what it is in the graph. */
  lemma ChosenFirst(node: map<NodeId, Node>, cands: set<NodeId>)
    ensures Chosen(node, {}, cands) == Selection(node, cands)
  {
    forall nodes: set<NodeId> ensures Onward(node, {}, cands, nodes) <==> Behind(node, cands, nodes) {}
    assert BehindAll(node, {}, cands) == BehindOf(node, cands);
  }

  lemma LeftFirst(s: Fused)
    requires s.outer == s.node.Keys
    ensures LeftOf(s, {}) == s.node
  {
  }

  /** What has been aborted stays so. */
  lemma {:induction false} AbortedForGood(s: Fused, results: set<ValueId>, rule: Rule, list: seq<NodeId>, i: nat)
    requires i <= |list| && Plans(s, results, rule, list[..i]).aborted
    ensures Plans(s, results, rule, list).aborted
    decreases |list|
  {
    if i == |list| {
      assert list[..i] == list;
    } else {
      var before := list[..|list| - 1];
      assert before[..i] == list[..i];
      AbortedForGood(s, results, rule, before, i);
    }
  }

  lemma PlansNext(s: Fused, results: set<ValueId>, rule: Rule, list: seq<NodeId>, i: nat)
    requires i < |list|
    ensures Plans(s, results, rule, list[..i + 1]) == Planned(s, results, rule, Plans(s, results, rule, list[..i]),
                                                              list[i])
  {
    hide Planned;
    assert list[..i + 1][..i] == list[..i];
  }

  lemma NothingPlanned(s: Fused, results: set<ValueId>, rule: Rule, list: seq<NodeId>)
    ensures Plans(s, results, rule, list[..0]) == Plan({}, {}, false)
  {
  }

  lemma AllPlanned(list: seq<NodeId>)
    ensures list[..|list|] == list
  {
  }

  // ---- where the nodes of the first graph are now ----

  type Image = map<NodeId, NodeId>

  ghost predicate WritesAs(s0: Fused, img: Image, a: NodeId, x: NodeId, v: ValueId) {
    a in img && img[a] == x && a in s0.node && v in s0.node[a].outputs
  }

  ghost predicate ReadsAs(s0: Fused, img: Image, b: NodeId, y: NodeId, v: ValueId) {
    b in img && img[b] == y && b in s0.node && v in s0.node[b].inputs
  }

  ghost predicate Writes(s: Fused, x: NodeId, v: ValueId) {
    x in s.node && v in s.node[x].outputs
  }

  ghost predicate Reads(s: Fused, y: NodeId, v: ValueId) {
    y in s.node && v in s.node[y].inputs
  }

  /** Nodes of the graph write and read what the nodes they stand for do, and what passes from
      one to another in the first graph still does. */
  ghost predicate Mirrors(s0: Fused, s: Fused, img: Image) {
    && (forall x, v :: x in s.outer && Writes(s, x, v) ==> exists a :: WritesAs(s0, img, a, x, v))
    && (forall y, v :: y in s.outer && Reads(s, y, v) ==> exists b :: ReadsAs(s0, img, b, y, v))
    && (forall a, b, v :: a in img && b in img && img[a] != img[b] && Writes(s0, a, v) && Reads(s0, b, v) ==>
          Writes(s, img[a], v) && Reads(s, img[b], v))
  }

  ghost predicate Maps(s0: Fused, groups: set<set<NodeId>>, s: Fused, img: Image) {
    && img.Keys == s0.outer <= s0.node.Keys <= s.node.Keys && s.outer <= s.node.Keys
    && (forall n :: n in img ==> img[n] in s.outer)
    && (forall n :: n in img && !InGroup(groups, n) ==> img[n] == n && s.node[n] == s0.node[n])
    && (forall n :: n in img && InGroup(groups, n) ==> img[n] !in s0.outer && s.node[img[n]].op == FusionGroup)
    && (forall x :: x in s.outer ==> exists n :: n in img && img[n] == x)
    && (forall a, b :: a in img && b in img && img[a] == img[b] ==> a == b || Together(groups, a, b))
    && (forall a, b :: Together(groups, a, b) ==> a in img && b in img && img[a] == img[b])
  }

  ghost predicate MarksAs(s0: Fused, rule: Rule, p: Plan, marks: map<NodeId, nat>) {
    && (forall n :: Candidate(s0, rule, n) ==> (MarkOf(marks, n) > 0 <==> n in p.marked || InGroup(p.groups, n)))
    && (forall n :: n in p.marked ==> n in s0.outer && !InGroup(p.groups, n))
  }

  /** The new subgraphs are the groups. */
  ghost predicate GroupsCreated(s0: Fused, groups: set<set<NodeId>>, s: Fused) {
    && (forall f :: f in s0.subgraph ==> f in s.subgraph && s.subgraph[f] == s0.subgraph[f])
    && (forall f :: f in s.subgraph && f !in s0.subgraph ==> s.subgraph[f].nodes in groups)
    && (forall g :: g in groups ==> exists f :: f in s.subgraph && f !in s0.subgraph && s.subgraph[f].nodes == g)
  }

  /** `v` enters the group: some node of it reads `v`, and none writes it. */
  ghost predicate EntersGroup(node: map<NodeId, Node>, group: set<NodeId>, v: ValueId) {
    C.ReadBy(node, group, v) && !C.WrittenBy(node, group, v)
  }

  /** Read inside the group, `w` stands for the value `v` of the first graph: it has the
      initializer of `v` if that was moved inside, and none otherwise. */
  ghost predicate StandsFor(s0: Fused, sub: SubGraph, canFuseInitializers: bool, v: ValueId, w: ValueId) {
    && (w in sub.initializer <==>
          canFuseInitializers && v in s0.initializer && !C.WrittenBy(s0.node, sub.nodes, v))
    && (w in sub.initializer ==> v in s0.initializer && sub.initializer[w] == s0.initializer[v])
  }

  /** The node of a group reads all that enters the group, except values with an initializer
      if those may be fused: their initializers are inside.  If not, none is. */
  ghost predicate GroupFed(s0: Fused, s: Fused, f: NodeId, canFuseInitializers: bool)
    requires f in s.subgraph
  {
    var sub := s.subgraph[f];
    && f in s.node && sub.nodes <= s0.node.Keys && sub.nodes <= s.node.Keys
    && (forall v :: v in s.node[f].inputs <==>
          EntersGroup(s0.node, sub.nodes, v) && !(canFuseInitializers && v in s0.initializer))
    && (forall n :: n in sub.nodes ==> |s.node[n].inputs| == |s0.node[n].inputs|)
    && (forall n, i :: n in sub.nodes && 0 <= i < |s0.node[n].inputs| ==>
          StandsFor(s0, sub, canFuseInitializers, s0.node[n].inputs[i], s.node[n].inputs[i]))
    && (!canFuseInitializers ==> sub.initializer == map[])
  }

  ghost predicate AllGroupsFed(s0: Fused, s: Fused, canFuseInitializers: bool) {
    forall f :: f in s.subgraph && f !in s0.subgraph ==> GroupFed(s0, s, f, canFuseInitializers)
  }

  /** The initializers that move into a group. */
  ghost predicate TakesAsAsked(s: Fused, t: Step, canFuseInitializers: bool) {
    forall v :: v in t.taken <==> canFuseInitializers && v in t.inputs && v in s.initializer
  }

  lemma NoneFed(s: Fused, canFuseInitializers: bool)
    ensures AllGroupsFed(s, s, canFuseInitializers)
  {
  }

  lemma TakenInside(s: Fused, t: Step, n: NodeId, v: ValueId)
    requires Applicable(s, t) && n in t.group && n in s.node && v in s.node[n].inputs
    ensures t.taken.Keys <= t.names.Keys
    ensures NameOf(t.names, v) in InnerInitializers(t) <==> v in t.taken
    ensures v in t.taken ==> InnerInitializers(t)[NameOf(t.names, v)] == t.taken[v]
  {
    assert Occurs(s.node, v);
    UnnameName(s.node, t.names, v);
    forall u | u in t.taken ensures Unname(t.names, t.names[u]) == u { UnnameName(s.node, t.names, u); }
  }

  lemma NewGroupFed(s0: Fused, s: Fused, t: Step, s': Fused, canFuseInitializers: bool)
    requires Applicable(s, t) && t.taken.Keys <= t.names.Keys && s' == Fuse(s, t)
    requires TakesAsAsked(s, t, canFuseInitializers) && s.initializer == s0.initializer
    requires forall n :: n in t.group ==> n in s0.node && n in s.node && s.node[n] == s0.node[n]
    ensures t.fused in s'.subgraph && GroupFed(s0, s', t.fused, canFuseInitializers)
  {
    hide *;
    ApplicableParts(s, t);
    FuseParts(s, t);
    InsideInitializers(s, t);
    EnteringRead(s0, s, t, canFuseInitializers);
    if !canFuseInitializers { NothingTaken(s, t); }
    forall n | n in t.group
      ensures |s'.node[n].inputs| == |s0.node[n].inputs|
      ensures forall i :: 0 <= i < |s0.node[n].inputs| ==>
        StandsFor(s0, s'.subgraph[t.fused], canFuseInitializers, s0.node[n].inputs[i], s'.node[n].inputs[i])
    {
      RenamedInputs(t.names, s.node[n]);
      forall i | 0 <= i < |s0.node[n].inputs|
        ensures
          StandsFor(s0, s'.subgraph[t.fused], canFuseInitializers, s0.node[n].inputs[i], s'.node[n].inputs[i])
      {
        TakenInside(s, t, n, s0.node[n].inputs[i]);
        TakenStands(s0, s, t, n, i, s'.subgraph[t.fused], canFuseInitializers);
      }
    }
    GroupFedNow(s0, s', t, canFuseInitializers);
  }

  lemma GroupFedNow(s0: Fused, s: Fused, t: Step, canFuseInitializers: bool)
    requires t.fused in s.subgraph && t.fused in s.node && s.subgraph[t.fused].nodes == t.group
    requires t.group <= s0.node.Keys && t.group <= s.node.Keys && s.node[t.fused] == GroupNode(t)
    requires forall v :: v in t.inputSeq <==>
      EntersGroup(s0.node, t.group, v) && !(canFuseInitializers && v in s0.initializer)
    requires forall n :: n in t.group ==> |s.node[n].inputs| == |s0.node[n].inputs|
    requires forall n, i :: n in t.group && 0 <= i < |s0.node[n].inputs| ==>
      StandsFor(s0, s.subgraph[t.fused], canFuseInitializers, s0.node[n].inputs[i], s.node[n].inputs[i])
    requires !canFuseInitializers ==> s.subgraph[t.fused].initializer == map[]
    ensures GroupFed(s0, s, t.fused, canFuseInitializers)
  {
    hide EntersGroup, StandsFor;
  }

  lemma RenamedInputs(names: Names, n: Node)
    ensures |RenameNode(names, n).inputs| == |n.inputs|
    ensures forall i :: 0 <= i < |n.inputs| ==> RenameNode(names, n).inputs[i] == NameOf(names, n.inputs[i])
  {
  }

  lemma InsideInitializers(s: Fused, t: Step)
    requires t.taken.Keys <= t.names.Keys
    ensures t.fused in Fuse(s, t).subgraph && Fuse(s, t).subgraph[t.fused].initializer == InnerInitializers(t)
  {
    hide InnerInitializers, RenameGroup, RenameSeq;
  }

  lemma EnteringRead(s0: Fused, s: Fused, t: Step, canFuseInitializers: bool)
    requires Applicable(s, t) && TakesAsAsked(s, t, canFuseInitializers) && s.initializer == s0.initializer
    requires forall n :: n in t.group ==> n in s0.node && n in s.node && s.node[n] == s0.node[n]
    ensures forall v :: v in t.inputSeq <==>
      EntersGroup(s0.node, t.group, v) && !(canFuseInitializers && v in s0.initializer)
  {
    hide FreshNames, UniqueWriter, C.ReadBy, C.WrittenBy, C.UsedOutside;
    SameEntering(s0, s, t.group);
    forall v ensures v in t.inputSeq <==>
      EntersGroup(s0.node, t.group, v) && !(canFuseInitializers && v in s0.initializer)
    {
      assert v in t.inputSeq <==> v in SetOf(t.inputSeq);
    }
  }

  lemma TakenStands(s0: Fused, s: Fused, t: Step, n: NodeId, i: nat, sub: SubGraph, canFuseInitializers: bool)
    requires Applicable(s, t) && TakesAsAsked(s, t, canFuseInitializers) && s.initializer == s0.initializer
    requires forall n :: n in t.group ==> n in s0.node && n in s.node && s.node[n] == s0.node[n]
    requires n in t.group && i < |s0.node[n].inputs| && sub.nodes == t.group
    requires t.taken.Keys <= t.names.Keys && sub.initializer == InnerInitializers(t)
    requires
      var v := s0.node[n].inputs[i];
      && (NameOf(t.names, v) in InnerInitializers(t) <==> v in t.taken)
      && (v in t.taken ==> InnerInitializers(t)[NameOf(t.names, v)] == t.taken[v])
    ensures StandsFor(s0, sub, canFuseInitializers, s0.node[n].inputs[i], NameOf(t.names, s0.node[n].inputs[i]))
  {
    hide FreshNames, UniqueWriter, InnerInitializers, C.UsedOutside, NameOf, C.WrittenBy;
    SameEntering(s0, s, t.group);
    assert C.ReadBy(s.node, t.group, s0.node[n].inputs[i]);
  }

  lemma NothingTaken(s: Fused, t: Step)
    requires t.taken.Keys <= t.names.Keys && TakesAsAsked(s, t, false)
    ensures InnerInitializers(t) == map[]
  {
  }

  lemma SameEntering(s0: Fused, s: Fused, group: set<NodeId>)
    requires forall n :: n in group ==> n in s0.node && n in s.node && s.node[n] == s0.node[n]
    ensures forall v :: C.ReadBy(s.node, group, v) <==> C.ReadBy(s0.node, group, v)
    ensures forall v :: C.WrittenBy(s.node, group, v) <==> C.WrittenBy(s0.node, group, v)
  {
  }

  lemma GroupStaysFed(s0: Fused, s: Fused, t: Step, s': Fused, f: NodeId, canFuseInitializers: bool)
    requires Applicable(s, t) && t.taken.Keys <= t.names.Keys && s' == Fuse(s, t)
    requires f in s.subgraph && f !in t.group && s.subgraph[f].nodes !! t.group
    requires GroupFed(s0, s, f, canFuseInitializers)
    ensures f in s'.subgraph && GroupFed(s0, s', f, canFuseInitializers)
  {
    hide Applicable, Fuse, EntersGroup, StandsFor;
    ApplicableParts(s, t);
    FuseParts(s, t);
    assert s'.subgraph[f] == s.subgraph[f] && s'.node[f] == s.node[f];
    assert forall n :: n in s.subgraph[f].nodes ==> n in s.node && s'.node[n] == s.node[n];
  }

  /** The graph and the marks are what the plan says of the first graph. */
  ghost predicate FollowsBy(s0: Fused, rule: Rule, p: Plan, s: Fused, marks: map<NodeId, nat>, img: Image) {
    && Maps(s0, p.groups, s, img) && Mirrors(s0, s, img) && MarksAs(s0, rule, p, marks)
    && GroupsCreated(s0, p.groups, s)
    && !p.aborted
  }

  ghost predicate Follows(s0: Fused, rule: Rule, p: Plan, s: Fused, marks: map<NodeId, nat>) {
    exists img: Image :: FollowsBy(s0, rule, p, s, marks, img)
  }

  lemma FollowsFirst(s: Fused, rule: Rule, marks: map<NodeId, nat>)
    requires s.outer <= s.node.Keys && forall n :: Candidate(s, rule, n) ==> MarkOf(marks, n) == 0
    ensures Follows(s, rule, Plan({}, {}, false), s, marks)
  {
    hide Maps, Mirrors;
    var img: Image := map n | n in s.outer :: n;
    MapsFirst(s, img);
    MirrorsFirst(s, img);
    NoneTogether();
    assert FollowsBy(s, rule, Plan({}, {}, false), s, marks, img);
  }

  lemma NoneTogether()
    ensures forall n :: !InGroup({}, n)
    ensures forall a, b :: !Together({}, a, b)
  {
  }

  lemma MapsFirst(s: Fused, img: Image)
    requires s.outer <= s.node.Keys && img.Keys == s.outer && forall n :: n in img ==> img[n] == n
    ensures Maps(s, {}, s, img)
  {
    hide Maps, InGroup, Together;
    NoneTogether();
    forall x | x in s.outer ensures exists n :: n in img && img[n] == x { assert x in img && img[x] == x; }
    MapsIs(s, {}, s, img);
  }

  lemma MirrorsFirst(s: Fused, img: Image)
    requires img.Keys == s.outer && forall n :: n in img ==> img[n] == n
    ensures Mirrors(s, s, img)
  {
    hide Mirrors;
    forall x, v | x in s.outer && Writes(s, x, v) ensures exists a :: WritesAs(s, img, a, x, v) {
      assert WritesAs(s, img, x, x, v);
    }
    forall y, v | y in s.outer && Reads(s, y, v) ensures exists b :: ReadsAs(s, img, b, y, v) {
      assert ReadsAs(s, img, y, y, v);
    }
    hide WritesAs, ReadsAs, Writes, Reads;
    MirrorsIs(s, s, img);
  }

  // ---- what is the same in both graphs ----

  lemma MapsParts(s0: Fused, groups: set<set<NodeId>>, s: Fused, img: Image, n: NodeId)
    requires Maps(s0, groups, s, img) && n in s0.outer
    ensures n in img && n in s0.node && n in s.node && img[n] in s.outer && s.outer <= s.node.Keys
    ensures !InGroup(groups, n) ==> img[n] == n && n in s.outer && s.node[n] == s0.node[n]
    ensures InGroup(groups, n) ==> img[n] !in s0.outer && s.node[img[n]].op == FusionGroup
  {
    hide InGroup, Together;
  }

  /** A node that is in no group stands for itself alone. */
  lemma StandsAlone(s0: Fused, groups: set<set<NodeId>>, s: Fused, img: Image, n: NodeId, m: NodeId)
    requires Maps(s0, groups, s, img) && n in s0.outer && !InGroup(groups, n) && m in img && img[m] == n
    ensures m == n
  {
    MapsParts(s0, groups, s, img, n);
    if Together(groups, m, n) { BothInGroup(groups, m, n); }
  }

  lemma BothInGroup(groups: set<set<NodeId>>, a: NodeId, b: NodeId)
    requires Together(groups, a, b)
    ensures InGroup(groups, a) && InGroup(groups, b)
  {
  }

  lemma CameFrom(s0: Fused, groups: set<set<NodeId>>, s: Fused, img: Image, x: NodeId) returns (n: NodeId)
    requires Maps(s0, groups, s, img) && x in s.outer
    ensures n in img && n in s0.outer && img[n] == x
  {
    hide InGroup, Together;
    n :| n in img && img[n] == x;
  }

  lemma GoneIsOut(s0: Fused, groups: set<set<NodeId>>, s: Fused, img: Image, n: NodeId)
    requires Maps(s0, groups, s, img) && n in s0.outer && InGroup(groups, n)
    ensures n !in s.outer
  {
    hide Maps, InGroup;
    if n in s.outer {
      var m := CameFrom(s0, groups, s, img, n);
      MapsParts(s0, groups, s, img, m);
    }
  }

  /** Candidates are nodes of the first graph that are in no group. */
  lemma CandidateIsLeft(s0: Fused, groups: set<set<NodeId>>, s: Fused, img: Image, rule: Rule, x: NodeId)
    requires Maps(s0, groups, s, img) && GroupsNotFusable(rule) && Candidate(s, rule, x)
    ensures x in LeftOf(s0, groups) && LeftOf(s0, groups)[x] == s.node[x] && !InGroup(groups, x)
  {
    hide Maps, InGroup;
    var n := CameFrom(s0, groups, s, img, x);
    MapsParts(s0, groups, s, img, n);
  }

  lemma LeftIsThere(s0: Fused, groups: set<set<NodeId>>, s: Fused, img: Image, x: NodeId)
    requires Maps(s0, groups, s, img) && x in LeftOf(s0, groups)
    ensures x in s0.outer && x in s0.node && x in s.outer && x in s.node
    ensures s.node[x] == s0.node[x] == LeftOf(s0, groups)[x]
    ensures !InGroup(groups, x) && x in img && img[x] == x
  {
    hide Maps, InGroup;
    MapsParts(s0, groups, s, img, x);
  }

  lemma CandidateNow(s0: Fused, groups: set<set<NodeId>>, s: Fused, img: Image, rule: Rule, n: NodeId)
    requires Maps(s0, groups, s, img) && n in s0.outer
    ensures Candidate(s, rule, n) <==> Candidate(s0, rule, n) && !InGroup(groups, n)
  {
    hide Maps, InGroup;
    MapsParts(s0, groups, s, img, n);
    if InGroup(groups, n) { GoneIsOut(s0, groups, s, img, n); }
  }

  lemma SamePair(s0: Fused, groups: set<set<NodeId>>, s: Fused, img: Image, a: NodeId, b: NodeId)
    requires Maps(s0, groups, s, img) && a in LeftOf(s0, groups) && b in LeftOf(s0, groups)
    ensures Near(s.node, a, b) <==> Near(LeftOf(s0, groups), a, b)
    ensures Feeds(s.node, a, b) <==> Feeds(s0.node, a, b)
  {
    hide Maps, LeftOf;
    LeftIsThere(s0, groups, s, img, a);
    LeftIsThere(s0, groups, s, img, b);
  }

  lemma SameComponentNow(s0: Fused, groups: set<set<NodeId>>, s: Fused, img: Image, rule: Rule, n: NodeId)
    requires Maps(s0, groups, s, img) && GroupsNotFusable(rule) && NoCrossing(s) && Candidate(s, rule, n)
    ensures ComponentOf(s.node, rule, n) == ComponentOf(LeftOf(s0, groups), rule, n)
    ensures forall m :: m in ComponentOf(s.node, rule, n) ==> m in LeftOf(s0, groups)
  {
    hide Maps, LeftOf, ComponentOf, Near;
    var here, there := ComponentOf(s.node, rule, n), ComponentOf(LeftOf(s0, groups), rule, n);
    var left := LeftOf(s0, groups);
    CandidateIsLeft(s0, groups, s, img, rule, n);
    ComponentOuter(s, rule, n);
    forall m | m in here ensures m in left { CandidateIsLeft(s0, groups, s, img, rule, m); }
    ComponentWithin(left, rule, n);
    forall a, b | a in here && Near(left, a, b) && Partner(left, rule, n, b) ensures b in here {
      SamePair(s0, groups, s, img, a, b);
      LeftIsThere(s0, groups, s, img, b);
      StaysInComponent(s.node, rule, n, a, b);
    }
    assert Joined(left, rule, n, here);
    forall a, b | a in there && Near(s.node, a, b) && Partner(s.node, rule, n, b) ensures b in there {
      LeftIsThere(s0, groups, s, img, a);
      OuterNear(s, a, b);
      CandidateIsLeft(s0, groups, s, img, rule, b);
      SamePair(s0, groups, s, img, a, b);
      StaysInComponent(left, rule, n, a, b);
    }
    assert Joined(s.node, rule, n, there);
  }

  lemma ComponentWithin(node: map<NodeId, Node>, rule: Rule, base: NodeId)
    ensures ComponentOf(node, rule, base) <= node.Keys
  {
  }

  // ---- what is behind, selected and declined ----

  lemma OnwardLeast(node: map<NodeId, Node>, groups: set<set<NodeId>>, cands: set<NodeId>, nodes: set<NodeId>)
    requires Onward(node, groups, cands, nodes)
    ensures BehindAll(node, groups, cands) <= nodes
  {
    hide Onward;
  }

  lemma OnwardItself(node: map<NodeId, Node>, groups: set<set<NodeId>>, cands: set<NodeId>)
    requires forall a, b :: Together(groups, a, b) ==> b in node
    ensures Onward(node, groups, cands, BehindAll(node, groups, cands))
  {
    hide Together;
    var all := BehindAll(node, groups, cands);
    forall a, b | ((a in cands && b !in cands) || a in all) && a in node && Feeds(node, a, b) ensures b in all {
      forall nodes: set<NodeId> | Onward(node, groups, cands, nodes) ensures b in nodes {}
    }
    forall a, b | a in all && Together(groups, a, b) ensures b in all {
      forall nodes: set<NodeId> | Onward(node, groups, cands, nodes) ensures b in nodes {}
    }
  }

  lemma GroupsAreThere(s0: Fused, groups: set<set<NodeId>>, s: Fused, img: Image, a: NodeId, b: NodeId)
    requires Maps(s0, groups, s, img) && Together(groups, a, b)
    ensures a in img && b in img && img[a] == img[b] && b in s0.node
  {
    hide InGroup, Together;
  }

  /** What passes between two nodes now passed between nodes that they stand for. */
  lemma PassedBefore(s0: Fused, groups: set<set<NodeId>>, s: Fused, img: Image, x: NodeId, y: NodeId)
    returns (a: NodeId, b: NodeId)
    requires Maps(s0, groups, s, img) && Mirrors(s0, s, img) && x in s.outer && y in s.outer && Feeds(s.node, x, y)
    ensures a in img && b in img && img[a] == x && img[b] == y && Feeds(s0.node, a, b)
  {
    hide Maps;
    var v :| v in s.node[x].outputs && v in s.node[y].inputs;
    assert Writes(s, x, v) && Reads(s, y, v);
    a :| WritesAs(s0, img, a, x, v);
    b :| ReadsAs(s0, img, b, y, v);
  }

  lemma PassesNow(s0: Fused, groups: set<set<NodeId>>, s: Fused, img: Image, a: NodeId, b: NodeId)
    requires Maps(s0, groups, s, img) && Mirrors(s0, s, img) && a in img && b in img
    requires Feeds(s0.node, a, b) && img[a] != img[b]
    ensures Feeds(s.node, img[a], img[b])
  {
    hide Maps;
    var v :| v in s0.node[a].outputs && v in s0.node[b].inputs;
    assert Writes(s0, a, v) && Reads(s0, b, v);
  }

  /** Nodes whose image is behind the candidates are all that is behind them in the first graph. */
  lemma BehindBefore(s0: Fused, groups: set<set<NodeId>>, s: Fused, img: Image, cands: set<NodeId>)
    requires Maps(s0, groups, s, img) && Mirrors(s0, s, img) && NoCrossing(s0)
    requires forall n :: n in cands ==> n in LeftOf(s0, groups)
    ensures cands * BehindAll(s0.node, groups, cands) <= BehindOf(s.node, cands)
  {
    hide Maps, Mirrors, LeftOf, BehindOf, Together, NoCrossing, BehindAll;
    var behind := BehindOf(s.node, cands);
    var all := set a | a in img && img[a] in behind;
    forall a, b | a in cands && a in s0.node && b !in cands && Feeds(s0.node, a, b) ensures b in all {
      LeftIsThere(s0, groups, s, img, a);
      StaysOuter(s0, a, b);
      MapsParts(s0, groups, s, img, b);
      ImageOutside(s0, groups, s, img, cands, b);
      PassesNow(s0, groups, s, img, a, b);
    }
    forall a, b | a in all && a in s0.node && Feeds(s0.node, a, b) ensures b in all {
      MapsKeys(s0, groups, s, img);
      StaysOuter(s0, a, b);
      MapsParts(s0, groups, s, img, b);
      if img[a] != img[b] { PassesNow(s0, groups, s, img, a, b); }
    }
    forall a, b | a in all && Together(groups, a, b) ensures b in all { GroupsAreThere(s0, groups, s, img, a, b); }
    assert Onward(s0.node, groups, cands, all);
    OnwardLeast(s0.node, groups, cands, all);
    forall n | n in cands ensures n in img && img[n] == n { LeftIsThere(s0, groups, s, img, n); }
  }

  lemma MapsKeys(s0: Fused, groups: set<set<NodeId>>, s: Fused, img: Image)
    requires Maps(s0, groups, s, img)
    ensures img.Keys == s0.outer <= s0.node.Keys <= s.node.Keys && s.outer <= s.node.Keys
  {
    hide InGroup, Together;
  }

  lemma StaysOuter(s: Fused, a: NodeId, b: NodeId)
    requires NoCrossing(s) && Feeds(s.node, a, b)
    ensures a in s.outer <==> b in s.outer
  {
  }

  /** Nodes beside the candidates stand for nodes beside them. */
  lemma ImageOutside(s0: Fused, groups: set<set<NodeId>>, s: Fused, img: Image, cands: set<NodeId>, b: NodeId)
    requires Maps(s0, groups, s, img) && b in s0.outer && b !in cands
    requires forall n :: n in cands ==> n in LeftOf(s0, groups)
    ensures b in img && img[b] !in cands
  {
    hide Maps, LeftOf;
    MapsParts(s0, groups, s, img, b);
    var x := img[b];
    if x in cands {
      LeftIsThere(s0, groups, s, img, x);
      StandsAlone(s0, groups, s, img, x, b);
    }
  }

  lemma BehindNow(s0: Fused, groups: set<set<NodeId>>, s: Fused, img: Image, cands: set<NodeId>)
    requires Maps(s0, groups, s, img) && Mirrors(s0, s, img) && NoCrossing(s)
    requires forall n :: n in cands ==> n in LeftOf(s0, groups)
    ensures cands * BehindOf(s.node, cands) <= BehindAll(s0.node, groups, cands)
  {
    hide Maps, Mirrors, LeftOf, BehindOf, Together, NoCrossing, BehindAll;
    forall a, b | Together(groups, a, b) ensures b in s0.node { GroupsAreThere(s0, groups, s, img, a, b); }
    OnwardItself(s0.node, groups, cands);
    var behind := BehindAll(s0.node, groups, cands);
    var all := set a | a in img && a in behind :: img[a];
    forall x, y | x in cands && x in s.node && y !in cands && Feeds(s.node, x, y) ensures y in all {
      LeftIsThere(s0, groups, s, img, x);
      StaysOuter(s, x, y);
      var a, b := PassedBefore(s0, groups, s, img, x, y);
      StandsAlone(s0, groups, s, img, x, a);
      MapsKeys(s0, groups, s, img);
      if b in cands { LeftIsThere(s0, groups, s, img, b); }
    }
    forall x, y | x in all && x in s.node && Feeds(s.node, x, y) ensures y in all {
      var c :| c in img && c in behind && img[c] == x;
      MapsKeys(s0, groups, s, img);
      MapsParts(s0, groups, s, img, c);
      StaysOuter(s, x, y);
      var a, b := PassedBefore(s0, groups, s, img, x, y);
      SameImage(s0, groups, s, img, c, a);
    }
    assert Behind(s.node, cands, all);
    BehindIsLeast(s.node, cands, all);
    forall n | n in cands && n in all ensures n in behind {
      var a :| a in img && a in behind && img[a] == n;
      LeftIsThere(s0, groups, s, img, n);
      StandsAlone(s0, groups, s, img, n, a);
    }
  }

  lemma SameImage(s0: Fused, groups: set<set<NodeId>>, s: Fused, img: Image, a: NodeId, b: NodeId)
    requires Maps(s0, groups, s, img) && a in img && b in img && img[a] == img[b]
    ensures a == b || Together(groups, a, b)
  {
    hide InGroup, Together;
  }

  lemma SameChosen(s0: Fused, groups: set<set<NodeId>>, s: Fused, img: Image, cands: set<NodeId>)
    requires Maps(s0, groups, s, img) && Mirrors(s0, s, img) && NoCrossing(s0) && NoCrossing(s)
    requires forall n :: n in cands ==> n in LeftOf(s0, groups)
    ensures Selection(s.node, cands) == Chosen(s0.node, groups, cands)
  {
    hide Maps, Mirrors, LeftOf, BehindOf, BehindAll, NoCrossing, Feeds;
    BehindBefore(s0, groups, s, img, cands);
    BehindNow(s0, groups, s, img, cands);
    var rest := cands - BehindOf(s.node, cands);
    assert rest == cands - BehindAll(s0.node, groups, cands);
    forall n | n in rest ensures n in s.node && n in s0.node && s.node[n] == s0.node[n] {
      LeftIsThere(s0, groups, s, img, n);
    }
    forall n, u | n in rest && u in rest ensures Feeds(s.node, n, u) <==> Feeds(s0.node, n, u) {
      SamePair(s0, groups, s, img, n, u);
    }
  }

  lemma SameTaken(s0: Fused, groups: set<set<NodeId>>, s: Fused, img: Image, group: set<NodeId>)
    requires Maps(s0, groups, s, img) && forall n :: n in group ==> n in LeftOf(s0, groups)
    ensures TakesNothing(s.node, group) <==> TakesNothing(s0.node, group)
    ensures |Calculating(s.node, group)| == |Calculating(s0.node, group)|
    ensures forall v :: C.WrittenBy(s.node, group, v) <==> C.WrittenBy(s0.node, group, v)
  {
    hide Maps, LeftOf, Calculating, TakesNothing;
    forall n | n in group ensures n in s.node && n in s0.node && s.node[n] == s0.node[n] {
      LeftIsThere(s0, groups, s, img, n);
    }
    assert SameNodes(s0.node, s.node, group) && SameNodes(s.node, s0.node, group);
    if TakesNothing(s.node, group) { SameTakes(s.node, s0.node, group); }
    if TakesNothing(s0.node, group) { SameTakes(s0.node, s.node, group); }
    FewerCalculate(s.node, s0.node, group, group);
    FewerCalculate(s0.node, s.node, group, group);
  }

  lemma UsedBefore(s0: Fused, groups: set<set<NodeId>>, s: Fused, img: Image, group: set<NodeId>, k: NodeId, v: ValueId)
    requires Maps(s0, groups, s, img) && Mirrors(s0, s, img) && NoCrossing(s)
    requires forall n :: n in group ==> n in LeftOf(s0, groups)
    requires k in group && Writes(s, k, v) && C.UsedOutside(s.node, group, v)
    ensures C.UsedOutside(s0.node, group, v)
  {
    hide Maps, LeftOf, NoCrossing;
    var n :| n in s.node && n !in group && v in s.node[n].inputs;
    LeftIsThere(s0, groups, s, img, k);
    assert Feeds(s.node, k, n);
    StaysOuter(s, k, n);
    assert Reads(s, n, v);
    var b :| ReadsAs(s0, img, b, n, v);
    if b in group { LeftIsThere(s0, groups, s, img, b); }
  }

  lemma UsedNow(s0: Fused, groups: set<set<NodeId>>, s: Fused, img: Image, group: set<NodeId>, k: NodeId, v: ValueId)
    requires Maps(s0, groups, s, img) && Mirrors(s0, s, img) && NoCrossing(s0)
    requires forall n :: n in group ==> n in LeftOf(s0, groups)
    requires k in group && Writes(s0, k, v) && C.UsedOutside(s0.node, group, v)
    ensures C.UsedOutside(s.node, group, v)
  {
    hide Maps, LeftOf, NoCrossing;
    var n :| n in s0.node && n !in group && v in s0.node[n].inputs;
    LeftIsThere(s0, groups, s, img, k);
    assert Feeds(s0.node, k, n);
    StaysOuter(s0, k, n);
    MapsParts(s0, groups, s, img, n);
    ImageOutside(s0, groups, s, img, group, n);
    assert Reads(s0, n, v);
    assert Reads(s, img[n], v);
  }

  lemma SameGiven(s0: Fused, groups: set<set<NodeId>>, s: Fused, img: Image, results: set<ValueId>, group: set<NodeId>)
    requires Maps(s0, groups, s, img) && Mirrors(s0, s, img) && NoCrossing(s0) && NoCrossing(s)
    requires forall n :: n in group ==> n in LeftOf(s0, groups)
    ensures GivesNothing(s.node, results, group) <==> GivesNothing(s0.node, results, group)
  {
    hide Maps, Mirrors, LeftOf, NoCrossing, C.UsedOutside, TakesNothing, Calculating;
    SameTaken(s0, groups, s, img, group);
    forall v | C.WrittenBy(s0.node, group, v)
      ensures C.UsedOutside(s.node, group, v) <==> C.UsedOutside(s0.node, group, v)
    {
      var k :| k in group && k in s0.node && v in s0.node[k].outputs;
      LeftIsThere(s0, groups, s, img, k);
      assert Writes(s, k, v) && Writes(s0, k, v);
      if C.UsedOutside(s.node, group, v) { UsedBefore(s0, groups, s, img, group, k, v); }
      if C.UsedOutside(s0.node, group, v) { UsedNow(s0, groups, s, img, group, k, v); }
    }
  }

  // ---- one more group ----

  lemma TogetherMore(groups: set<set<NodeId>>, group: set<NodeId>)
    ensures forall n :: InGroup(groups + {group}, n) <==> InGroup(groups, n) || n in group
    ensures forall a, b :: Together(groups + {group}, a, b) <==> Together(groups, a, b) || (a in group && b in group)
  {
    var more := groups + {group};
    assert group in more && forall g :: g in groups ==> g in more;
  }

  function ImageWith(img: Image, group: set<NodeId>, f: NodeId): Image {
    map n | n in img :: if n in group then f else img[n]
  }

  /** What the contracted graph has of the one before. */
  ghost predicate Contracts(s: Fused, t: Step, s': Fused) {
    && t.group <= s.outer <= s.node.Keys && t.fused !in s.node && t.group != {}
    && s'.outer == s.outer - t.group + {t.fused} && s'.node.Keys == s.node.Keys + {t.fused}
    && s'.node[t.fused] == GroupNode(t)
    && (forall n :: n in s.outer && n !in t.group ==> s'.node[n] == s.node[n])
  }

  lemma FuseContracts(s: Fused, t: Step, s': Fused)
    requires Applicable(s, t) && t.taken.Keys <= t.names.Keys && s' == Fuse(s, t) && t.group != {}
    ensures Contracts(s, t, s')
  {
    hide Applicable, Fuse;
    CutOuter(s, t);
    ApplicableParts(s, t);
    FuseParts(s, t);
  }

  lemma ImageMore(s0: Fused, groups: set<set<NodeId>>, s: Fused, img: Image, t: Step, s': Fused, n: NodeId)
    requires Maps(s0, groups, s, img) && Contracts(s, t, s')
    requires forall n :: n in t.group ==> n in LeftOf(s0, groups)
    requires n in img
    ensures
      var x := ImageWith(img, t.group, t.fused)[n];
      && x in s'.outer && x in s'.node
      && (!InGroup(groups + {t.group}, n) ==> x == n && n in s0.node && s'.node[n] == s0.node[n])
      && (InGroup(groups + {t.group}, n) ==> x !in s0.outer && s'.node[x].op == FusionGroup)
  {
    hide Maps, LeftOf, InGroup, Together;
    TogetherMore(groups, t.group);
    MapsKeys(s0, groups, s, img);
    MapsParts(s0, groups, s, img, n);
    if n !in t.group { ImageOutside(s0, groups, s, img, t.group, n); }
  }

  lemma CameFromMore(s0: Fused, groups: set<set<NodeId>>, s: Fused, img: Image, t: Step, s': Fused, x: NodeId)
    requires Maps(s0, groups, s, img) && Contracts(s, t, s')
    requires forall n :: n in t.group ==> n in LeftOf(s0, groups)
    requires x in s'.outer
    ensures exists n :: n in img && ImageWith(img, t.group, t.fused)[n] == x
  {
    hide Maps, LeftOf;
    var n;
    if x == t.fused { n :| n in t.group; } else { n := CameFrom(s0, groups, s, img, x); }
    if n in t.group { LeftIsThere(s0, groups, s, img, n); }
    assert n in img && ImageWith(img, t.group, t.fused)[n] == x;
  }

  lemma SameImageMore(s0: Fused, groups: set<set<NodeId>>, s: Fused, img: Image, t: Step, s': Fused, a: NodeId,
                      b: NodeId)
    requires Maps(s0, groups, s, img) && Contracts(s, t, s')
    requires forall n :: n in t.group ==> n in LeftOf(s0, groups)
    requires a in img && b in img && ImageWith(img, t.group, t.fused)[a] == ImageWith(img, t.group, t.fused)[b]
    ensures a == b || Together(groups + {t.group}, a, b)
  {
    hide Maps, LeftOf, Together;
    TogetherMore(groups, t.group);
    MapsKeys(s0, groups, s, img);
    MapsParts(s0, groups, s, img, a);
    MapsParts(s0, groups, s, img, b);
    if a !in t.group && b !in t.group { SameImage(s0, groups, s, img, a, b); }
  }

  lemma TogetherStays(s0: Fused, groups: set<set<NodeId>>, s: Fused, img: Image, t: Step, s': Fused, a: NodeId,
                      b: NodeId)
    requires Maps(s0, groups, s, img) && Contracts(s, t, s')
    requires forall n :: n in t.group ==> n in LeftOf(s0, groups)
    requires Together(groups + {t.group}, a, b)
    ensures a in img && b in img && ImageWith(img, t.group, t.fused)[a] == ImageWith(img, t.group, t.fused)[b]
  {
    hide Maps, LeftOf, Together, InGroup;
    TogetherMore(groups, t.group);
    if Together(groups, a, b) {
      GroupsAreThere(s0, groups, s, img, a, b);
      BothInGroup(groups, a, b);
    }
    if a in t.group { LeftIsThere(s0, groups, s, img, a); }
    if b in t.group { LeftIsThere(s0, groups, s, img, b); }
  }

  lemma MapsMore(s0: Fused, groups: set<set<NodeId>>, s: Fused, img: Image, t: Step, s': Fused)
    requires Maps(s0, groups, s, img) && Contracts(s, t, s')
    requires forall n :: n in t.group ==> n in LeftOf(s0, groups)
    ensures Maps(s0, groups + {t.group}, s', ImageWith(img, t.group, t.fused))
  {
    hide Maps, LeftOf, InGroup, Together, Contracts;
    var img', groups' := ImageWith(img, t.group, t.fused), groups + {t.group};
    MapsKeys(s0, groups, s, img);
    ContractsKeys(s, t, s');
    forall n | n in img'
      ensures img'[n] in s'.outer
      ensures !InGroup(groups', n) ==> img'[n] == n && s'.node[n] == s0.node[n]
      ensures InGroup(groups', n) ==> img'[n] !in s0.outer && s'.node[img'[n]].op == FusionGroup
    {
      ImageMore(s0, groups, s, img, t, s', n);
    }
    forall x | x in s'.outer ensures exists n :: n in img' && img'[n] == x {
      CameFromMore(s0, groups, s, img, t, s', x);
      var n :| n in img && ImageWith(img, t.group, t.fused)[n] == x;
      assert n in img' && img'[n] == x;
    }
    forall a, b | a in img' && b in img' && img'[a] == img'[b] ensures a == b || Together(groups', a, b) {
      SameImageMore(s0, groups, s, img, t, s', a, b);
    }
    forall a, b | Together(groups', a, b) ensures a in img' && b in img' && img'[a] == img'[b] {
      TogetherStays(s0, groups, s, img, t, s', a, b);
    }
    MapsIs(s0, groups', s', img');
  }

  lemma ContractsKeys(s: Fused, t: Step, s': Fused)
    requires Contracts(s, t, s')
    ensures s.node.Keys <= s'.node.Keys && s'.outer <= s'.node.Keys
  {
  }

  lemma MapsIs(s0: Fused, groups: set<set<NodeId>>, s: Fused, img: Image)
    requires img.Keys == s0.outer <= s0.node.Keys <= s.node.Keys && s.outer <= s.node.Keys
    requires forall n :: n in img ==> img[n] in s.outer
    requires forall n :: n in img && !InGroup(groups, n) ==> img[n] == n && s.node[n] == s0.node[n]
    requires forall n :: n in img && InGroup(groups, n) ==> img[n] !in s0.outer && s.node[img[n]].op == FusionGroup
    requires forall x :: x in s.outer ==> exists n :: n in img && img[n] == x
    requires forall a, b :: a in img && b in img && img[a] == img[b] ==> a == b || Together(groups, a, b)
    requires forall a, b :: Together(groups, a, b) ==> a in img && b in img && img[a] == img[b]
    ensures Maps(s0, groups, s, img)
  {
    hide InGroup, Together;
  }

  lemma OutputSeqWritten(s: Fused, t: Step, v: ValueId)
    requires Applicable(s, t) && v in t.outputSeq
    ensures C.WrittenBy(s.node, t.group, v)
  {
    hide FreshNames, UniqueWriter, C.WrittenBy, C.ReadBy, C.UsedOutside;
    assert v in SetOf(t.outputSeq);
  }

  lemma InputSeqRead(s: Fused, t: Step, v: ValueId)
    requires Applicable(s, t) && v in t.inputSeq
    ensures C.ReadBy(s.node, t.group, v)
  {
    hide FreshNames, UniqueWriter, C.WrittenBy, C.ReadBy, C.UsedOutside;
    assert v in SetOf(t.inputSeq);
  }

  lemma WritersMore(s0: Fused, groups: set<set<NodeId>>, s: Fused, img: Image, t: Step, s': Fused, x: NodeId,
                    v: ValueId)
    requires Maps(s0, groups, s, img) && Mirrors(s0, s, img) && Contracts(s, t, s') && Applicable(s, t)
    requires forall n :: n in t.group ==> n in LeftOf(s0, groups)
    requires x in s'.outer && Writes(s', x, v)
    ensures exists a :: WritesAs(s0, ImageWith(img, t.group, t.fused), a, x, v)
  {
    var img' := ImageWith(img, t.group, t.fused);
    hide Maps, LeftOf, Applicable;
    if x == t.fused {
      OutputSeqWritten(s, t, v);
      var a :| a in t.group && a in s.node && v in s.node[a].outputs;
      LeftIsThere(s0, groups, s, img, a);
      assert WritesAs(s0, img', a, x, v);
    } else {
      assert Writes(s, x, v);
      var a :| WritesAs(s0, img, a, x, v);
      if a in t.group { LeftIsThere(s0, groups, s, img, a); }
      assert WritesAs(s0, img', a, x, v);
    }
  }

  lemma ReadersMore(s0: Fused, groups: set<set<NodeId>>, s: Fused, img: Image, t: Step, s': Fused, y: NodeId,
                    v: ValueId)
    requires Maps(s0, groups, s, img) && Mirrors(s0, s, img) && Contracts(s, t, s') && Applicable(s, t)
    requires forall n :: n in t.group ==> n in LeftOf(s0, groups)
    requires y in s'.outer && Reads(s', y, v)
    ensures exists b :: ReadsAs(s0, ImageWith(img, t.group, t.fused), b, y, v)
  {
    var img' := ImageWith(img, t.group, t.fused);
    hide Maps, LeftOf, Applicable;
    if y == t.fused {
      InputSeqRead(s, t, v);
      var b :| b in t.group && b in s.node && v in s.node[b].inputs;
      LeftIsThere(s0, groups, s, img, b);
      assert ReadsAs(s0, img', b, y, v);
    } else {
      assert Reads(s, y, v);
      var b :| ReadsAs(s0, img, b, y, v);
      if b in t.group { LeftIsThere(s0, groups, s, img, b); }
      assert ReadsAs(s0, img', b, y, v);
    }
  }

  lemma PassesMore(s0: Fused, groups: set<set<NodeId>>, s: Fused, img: Image, t: Step, s': Fused,
                   a: NodeId, b: NodeId, v: ValueId)
    requires Maps(s0, groups, s, img) && Mirrors(s0, s, img) && Contracts(s, t, s') && Applicable(s, t)
    requires InitializersUnwritten(s) && forall n :: n in t.group ==> n in LeftOf(s0, groups)
    requires a in img && b in img && ImageWith(img, t.group, t.fused)[a] != ImageWith(img, t.group, t.fused)[b]
    requires Writes(s0, a, v) && Reads(s0, b, v)
    ensures Writes(s', ImageWith(img, t.group, t.fused)[a], v) && Reads(s', ImageWith(img, t.group, t.fused)[b], v)
  {
    hide Maps, LeftOf, Applicable, InitializersUnwritten;
    var x, y := img[a], img[b];
    MapsKeys(s0, groups, s, img);
    MapsParts(s0, groups, s, img, a);
    MapsParts(s0, groups, s, img, b);
    Apart(s0, groups, s, img, t.group, a, b);
    assert Writes(s, x, v) && Reads(s, y, v);
    if a in t.group {
      LeftIsThere(s0, groups, s, img, a);
      ImageOutside(s0, groups, s, img, t.group, b);
      GroupWrites(s, t, x, y, v);
    } else if b in t.group {
      LeftIsThere(s0, groups, s, img, b);
      ImageOutside(s0, groups, s, img, t.group, a);
      GroupReads(s, t, x, y, v);
    } else {
      ImageOutside(s0, groups, s, img, t.group, a);
      ImageOutside(s0, groups, s, img, t.group, b);
    }
  }

  /** Nodes with one image are both in the new group or both outside. */
  lemma Apart(s0: Fused, groups: set<set<NodeId>>, s: Fused, img: Image, group: set<NodeId>, a: NodeId, b: NodeId)
    requires Maps(s0, groups, s, img) && a in img && b in img && !(a in group && b in group)
    requires forall n :: n in group ==> n in LeftOf(s0, groups)
    ensures img[a] == img[b] ==> (a !in group && b !in group) || a == b
  {
    hide Maps, LeftOf;
    if img[a] == img[b] && a in group {
      LeftIsThere(s0, groups, s, img, a);
      StandsAlone(s0, groups, s, img, a, b);
    } else if img[a] == img[b] && b in group {
      LeftIsThere(s0, groups, s, img, b);
      StandsAlone(s0, groups, s, img, b, a);
    }
  }

  lemma MirrorsMore(s0: Fused, groups: set<set<NodeId>>, s: Fused, img: Image, t: Step, s': Fused)
    requires Maps(s0, groups, s, img) && Mirrors(s0, s, img) && Contracts(s, t, s') && Applicable(s, t)
    requires InitializersUnwritten(s) && forall n :: n in t.group ==> n in LeftOf(s0, groups)
    ensures Mirrors(s0, s', ImageWith(img, t.group, t.fused))
  {
    hide Maps, Mirrors, LeftOf, Applicable, InitializersUnwritten, Contracts, WritesAs, ReadsAs, Writes, Reads;
    var img' := ImageWith(img, t.group, t.fused);
    forall x, v | x in s'.outer && Writes(s', x, v) ensures exists a :: WritesAs(s0, img', a, x, v) {
      WritersMore(s0, groups, s, img, t, s', x, v);
    }
    forall y, v | y in s'.outer && Reads(s', y, v) ensures exists b :: ReadsAs(s0, img', b, y, v) {
      ReadersMore(s0, groups, s, img, t, s', y, v);
    }
    forall a, b, v | a in img' && b in img' && img'[a] != img'[b] && Writes(s0, a, v) && Reads(s0, b, v)
      ensures Writes(s', img'[a], v) && Reads(s', img'[b], v)
    {
      PassesMore(s0, groups, s, img, t, s', a, b, v);
    }
    MirrorsIs(s0, s', img');
  }

  lemma MirrorsIs(s0: Fused, s: Fused, img: Image)
    requires forall x, v :: x in s.outer && Writes(s, x, v) ==> exists a :: WritesAs(s0, img, a, x, v)
    requires forall y, v :: y in s.outer && Reads(s, y, v) ==> exists b :: ReadsAs(s0, img, b, y, v)
    requires forall a, b, v :: a in img && b in img && img[a] != img[b] && Writes(s0, a, v) && Reads(s0, b, v) ==>
      Writes(s, img[a], v) && Reads(s, img[b], v)
    ensures Mirrors(s0, s, img)
  {
    hide WritesAs, ReadsAs, Writes, Reads;
  }

  lemma GroupsCreatedMore(s0: Fused, groups: set<set<NodeId>>, s: Fused, t: Step, s': Fused)
    requires GroupsCreated(s0, groups, s) && Applicable(s, t) && t.taken.Keys <= t.names.Keys && s' == Fuse(s, t)
    ensures GroupsCreated(s0, groups + {t.group}, s')
  {
    hide Applicable, Fuse;
    ApplicableParts(s, t);
    FuseParts(s, t);
    forall g | g in groups + {t.group}
      ensures exists f :: f in s'.subgraph && f !in s0.subgraph && s'.subgraph[f].nodes == g
    {
      if g in groups {
        var f :| f in s.subgraph && f !in s0.subgraph && s.subgraph[f].nodes == g;
        assert f in s'.subgraph && s'.subgraph[f] == s.subgraph[f];
      } else {
        assert t.fused in s'.subgraph && s'.subgraph[t.fused].nodes == g;
      }
    }
  }

  // ---- the steps of the loop ----

  /** What the plan says of the node looked at is what the pass finds. */
  ghost predicate Agrees(s0: Fused, results: set<ValueId>, rule: Rule, p: Plan, s: Fused, marks: map<NodeId, nat>,
                         n: NodeId) {
    var k := ComponentOf(s.node, rule, n);
    var group := Selection(s.node, k);
    && !p.aborted && n !in p.marked && !InGroup(p.groups, n) && Candidate(s0, rule, n)
    && k == ComponentOf(LeftOf(s0, p.groups), rule, n) && group == Chosen(s0.node, p.groups, k) && group <= k
    && (forall m :: m in k ==> m in LeftOf(s0, p.groups) && Candidate(s0, rule, m))
    && (Unmarked(marks, k) <==> k !! p.marked)
    && |Calculating(s.node, group)| == |Calculating(s0.node, group)|
    && (TakesNothing(s.node, group) <==> TakesNothing(s0.node, group))
    && (GivesNothing(s.node, results, group) <==> GivesNothing(s0.node, results, group))
  }

  lemma PlanAgrees(s0: Fused, results: set<ValueId>, rule: Rule, p: Plan, s: Fused, marks: map<NodeId, nat>, img: Image,
                   n: NodeId)
    requires FollowsBy(s0, rule, p, s, marks, img) && NoCrossing(s0) && NoCrossing(s) && GroupsNotFusable(rule)
    requires n in s0.outer && Candidate(s, rule, n) && MarkOf(marks, n) == 0
    ensures Agrees(s0, results, rule, p, s, marks, n)
  {
    hide Maps, Mirrors, GroupsCreated, NoCrossing, GroupsNotFusable, ComponentOf, Selection, Chosen, LeftOf,
      Calculating, TakesNothing,
      GivesNothing, InGroup, Candidate;
    var k := ComponentOf(s.node, rule, n);
    CandidateNow(s0, p.groups, s, img, rule, n);
    SameComponentNow(s0, p.groups, s, img, rule, n);
    ComponentOuter(s, rule, n);
    forall m | m in k ensures Candidate(s0, rule, m) && !InGroup(p.groups, m) {
      LeftIsThere(s0, p.groups, s, img, m);
      CandidateNow(s0, p.groups, s, img, rule, m);
    }
    SameChosen(s0, p.groups, s, img, k);
    SelectionInside(s.node, k);
    SameTaken(s0, p.groups, s, img, Selection(s.node, k));
    SameGiven(s0, p.groups, s, img, results, Selection(s.node, k));
  }

  lemma PlanSkips(s0: Fused, results: set<ValueId>, rule: Rule, p: Plan, s: Fused, marks: map<NodeId, nat>, n: NodeId)
    requires Follows(s0, rule, p, s, marks) && n in s0.outer
    requires !Candidate(s, rule, n) || MarkOf(marks, n) > 0
    ensures Planned(s0, results, rule, p, n) == p
  {
    hide Maps, Mirrors, GroupsCreated, ComponentOf, Chosen, LeftOf, Calculating, TakesNothing, GivesNothing, InGroup,
      Candidate;
    var img: Image :| FollowsBy(s0, rule, p, s, marks, img);
    CandidateNow(s0, p.groups, s, img, rule, n);
  }

  lemma PlanFound(s0: Fused, results: set<ValueId>, rule: Rule, p: Plan, s: Fused, marks: map<NodeId, nat>, n: NodeId)
    requires Follows(s0, rule, p, s, marks) && NoCrossing(s0) && NoCrossing(s) && GroupsNotFusable(rule)
    requires n in s0.outer && Candidate(s, rule, n) && MarkOf(marks, n) == 0
    ensures Agrees(s0, results, rule, p, s, marks, n)
  {
    hide Agrees, FollowsBy, NoCrossing, GroupsNotFusable, Candidate;
    var img: Image :| FollowsBy(s0, rule, p, s, marks, img);
    PlanAgrees(s0, results, rule, p, s, marks, img, n);
  }

  lemma PlanAborts(s0: Fused, results: set<ValueId>, rule: Rule, p: Plan, s: Fused, marks: map<NodeId, nat>, n: NodeId)
    requires Agrees(s0, results, rule, p, s, marks, n) && !Unmarked(marks, ComponentOf(s.node, rule, n))
    ensures Planned(s0, results, rule, p, n).aborted
  {
    hide ComponentOf, Selection, Chosen, LeftOf, Calculating, TakesNothing, GivesNothing, InGroup, Candidate, Unmarked;
  }

  lemma PlanRefuses(s0: Fused, results: set<ValueId>, rule: Rule, p: Plan, s: Fused, marks: map<NodeId, nat>, n: NodeId)
    requires Agrees(s0, results, rule, p, s, marks, n) && Unmarked(marks, ComponentOf(s.node, rule, n))
    requires |Calculating(s.node, Selection(s.node, ComponentOf(s.node, rule, n)))| < rule.minFuseOps
    ensures Planned(s0, results, rule, p, n) == p
  {
    hide ComponentOf, Selection, Chosen, LeftOf, Calculating, TakesNothing, GivesNothing, InGroup, Candidate, Unmarked;
  }

  lemma PlanDeclines(s0: Fused, results: set<ValueId>, rule: Rule, p: Plan, s: Fused,
                     marks: map<NodeId, nat>, marks': map<NodeId, nat>, id: nat, n: NodeId)
    requires Follows(s0, rule, p, s, marks) && Agrees(s0, results, rule, p, s, marks, n) && id > 0
    requires Unmarked(marks, ComponentOf(s.node, rule, n))
    requires
      var group := Selection(s.node, ComponentOf(s.node, rule, n));
      && (TakesNothing(s.node, group) || GivesNothing(s.node, results, group))
      && |Calculating(s.node, group)| >= rule.minFuseOps && marks' == marks + map m | m in group :: id
    ensures Follows(s0, rule, Planned(s0, results, rule, p, n), s, marks')
  {
    hide Maps, Mirrors, GroupsCreated, ComponentOf, Selection, Chosen, Calculating, TakesNothing, GivesNothing, InGroup,
      Candidate,
      Unmarked;
    var group := Selection(s.node, ComponentOf(s.node, rule, n));
    var p' := Planned(s0, results, rule, p, n);
    assert p' == p.(marked := p.marked + group);
    var img: Image :| FollowsBy(s0, rule, p, s, marks, img);
    MarksMore(s0, rule, p, marks, marks', group);
    assert FollowsBy(s0, rule, p', s, marks', img);
  }

  lemma MarksMore(s0: Fused, rule: Rule, p: Plan, marks: map<NodeId, nat>, marks': map<NodeId, nat>, group: set<NodeId>)
    requires MarksAs(s0, rule, p, marks) && Marked(marks, marks', group)
    requires forall n :: n in group ==> n in LeftOf(s0, p.groups)
    ensures MarksAs(s0, rule, p.(marked := p.marked + group), marks')
  {
    hide InGroup, Candidate;
  }

  lemma MarksOfGroup(s0: Fused, rule: Rule, p: Plan, marks: map<NodeId, nat>, marks': map<NodeId, nat>,
                     group: set<NodeId>, f: NodeId)
    requires MarksAs(s0, rule, p, marks) && Marked(marks, marks', group + {f}) && f !in s0.outer && group !! p.marked
    ensures MarksAs(s0, rule, p.(groups := p.groups + {group}), marks')
  {
    hide InGroup;
    TogetherMore(p.groups, group);
  }

  lemma PlanCreates(s0: Fused, results: set<ValueId>, rule: Rule, p: Plan, s: Fused, t: Step, s': Fused,
                    marks: map<NodeId, nat>, marks': map<NodeId, nat>, id: nat, n: NodeId)
    requires Follows(s0, rule, p, s, marks) && Agrees(s0, results, rule, p, s, marks, n) && id > 0
    requires Unmarked(marks, ComponentOf(s.node, rule, n))
    requires Applicable(s, t) && t.taken.Keys <= t.names.Keys && s' == Fuse(s, t) && InitializersUnwritten(s)
    requires t.group == Selection(s.node, ComponentOf(s.node, rule, n))
    requires !TakesNothing(s.node, t.group) && !GivesNothing(s.node, results, t.group)
    requires |Calculating(s.node, t.group)| >= rule.minFuseOps
    requires marks' == (marks + map m | m in t.group :: id)[t.fused := id]
    ensures Follows(s0, rule, Planned(s0, results, rule, p, n), s', marks')
  {
    hide *;
    var p' := Planned(s0, results, rule, p, n);
    PlannedCreates(s0, results, rule, p, s, marks, n, t.group);
    TakesSomething(s.node, t.group);
    var img := ImageOf(s0, rule, p, s, marks);
    FuseContracts(s, t, s');
    MapsMore(s0, p.groups, s, img, t, s');
    MirrorsMore(s0, p.groups, s, img, t, s');
    GroupsCreatedMore(s0, p.groups, s, t, s');
    NewIsNew(s0, p.groups, s, img, t, s');
    MarkedWith(marks, marks', t.group, t.fused, id);
    MarksOfGroup(s0, rule, p, marks, marks', t.group, t.fused);
    FollowsIs(s0, rule, p', s', marks', ImageWith(img, t.group, t.fused));
  }

  lemma PlannedCreates(s0: Fused, results: set<ValueId>, rule: Rule, p: Plan, s: Fused, marks: map<NodeId, nat>,
                       n: NodeId, group: set<NodeId>)
    requires Agrees(s0, results, rule, p, s, marks, n) && Unmarked(marks, ComponentOf(s.node, rule, n))
    requires group == Selection(s.node, ComponentOf(s.node, rule, n))
    requires !TakesNothing(s.node, group) && !GivesNothing(s.node, results, group)
    requires |Calculating(s.node, group)| >= rule.minFuseOps
    ensures Planned(s0, results, rule, p, n) == p.(groups := p.groups + {group})
    ensures group !! p.marked && forall m :: m in group ==> m in LeftOf(s0, p.groups)
  {
    hide ComponentOf, Selection, Chosen, Calculating, TakesNothing, GivesNothing, InGroup, Candidate, Unmarked, LeftOf;
  }

  lemma ImageOf(s0: Fused, rule: Rule, p: Plan, s: Fused, marks: map<NodeId, nat>) returns (img: Image)
    requires Follows(s0, rule, p, s, marks)
    ensures Maps(s0, p.groups, s, img) && Mirrors(s0, s, img) && MarksAs(s0, rule, p, marks)
    ensures GroupsCreated(s0, p.groups, s) && !p.aborted
  {
    hide Maps, Mirrors, MarksAs, GroupsCreated;
    img :| FollowsBy(s0, rule, p, s, marks, img);
  }

  lemma FollowsIs(s0: Fused, rule: Rule, p: Plan, s: Fused, marks: map<NodeId, nat>, img: Image)
    requires Maps(s0, p.groups, s, img) && Mirrors(s0, s, img) && MarksAs(s0, rule, p, marks)
    requires GroupsCreated(s0, p.groups, s) && !p.aborted
    ensures Follows(s0, rule, p, s, marks)
  {
    hide Maps, Mirrors, MarksAs, GroupsCreated;
    assert FollowsBy(s0, rule, p, s, marks, img);
  }

  lemma MarkedWith(marks: map<NodeId, nat>, marks': map<NodeId, nat>, group: set<NodeId>, f: NodeId, id: nat)
    requires id > 0 && marks' == (marks + map m | m in group :: id)[f := id]
    ensures Marked(marks, marks', group + {f})
  {
  }

  lemma NewIsNew(s0: Fused, groups: set<set<NodeId>>, s: Fused, img: Image, t: Step, s': Fused)
    requires Maps(s0, groups, s, img) && Contracts(s, t, s')
    ensures t.fused !in s0.outer
  {
    hide Maps;
    MapsKeys(s0, groups, s, img);
  }

  /** Nodes that are selected are still as they were in the first graph. */
  lemma SelectedAreLeft(s0: Fused, results: set<ValueId>, rule: Rule, p: Plan, s: Fused, marks: map<NodeId, nat>,
                        n: NodeId)
    requires Follows(s0, rule, p, s, marks) && Agrees(s0, results, rule, p, s, marks, n)
    ensures forall m :: m in Selection(s.node, ComponentOf(s.node, rule, n)) ==>
      m in s0.node && m in s.node && s.node[m] == s0.node[m]
  {
    hide Maps, Mirrors, MarksAs, GroupsCreated, ComponentOf, Selection, Chosen, LeftOf, Calculating, TakesNothing,
      GivesNothing, InGroup, Candidate, Unmarked;
    var img := ImageOf(s0, rule, p, s, marks);
    forall m | m in Selection(s.node, ComponentOf(s.node, rule, n))
      ensures m in s0.node && m in s.node && s.node[m] == s0.node[m]
    {
      LeftIsThere(s0, p.groups, s, img, m);
    }
  }

  lemma AllGroupsFedMore(s0: Fused, s: Fused, t: Step, s': Fused, canFuseInitializers: bool)
    requires Applicable(s, t) && t.taken.Keys <= t.names.Keys && s' == Fuse(s, t)
    requires TakesAsAsked(s, t, canFuseInitializers) && s.initializer == s0.initializer
    requires forall n :: n in t.group ==> n in s0.node && n in s.node && s.node[n] == s0.node[n]
    requires AllGroupsFed(s0, s, canFuseInitializers)
    ensures AllGroupsFed(s0, s', canFuseInitializers)
  {
    hide Applicable, Fuse, GroupFed, TakesAsAsked;
    ApplicableParts(s, t);
    FuseParts(s, t);
    NewGroupFed(s0, s, t, s', canFuseInitializers);
    forall f | f in s'.subgraph && f !in s0.subgraph ensures GroupFed(s0, s', f, canFuseInitializers) {
      if f != t.fused {
        InnerAreApart(s, t, f);
        GroupStaysFed(s0, s, t, s', f, canFuseInitializers);
      }
    }
  }

  lemma InnerAreApart(s: Fused, t: Step, f: NodeId)
    requires Applicable(s, t) && f in s.subgraph
    ensures f !in t.group && s.subgraph[f].nodes !! t.group
  {
    hide FreshNames, UniqueWriter, C.Classified;
  }

  /** Every group holds `minFuseOps` nodes with operators other than Identity, Constant and
      Reshape; so none consists of these three only, unless groups may be without calculation. */
  ghost predicate GroupsCalculate(s0: Fused, s: Fused, rule: Rule) {
    forall f :: f in s.subgraph && f !in s0.subgraph ==>
      && |Calculating(s0.node, s.subgraph[f].nodes)| >= rule.minFuseOps
      && (rule.minFuseOps > 0 ==>
            exists n :: n in s.subgraph[f].nodes && n in s0.node && Calculates(s0.node[n].op))
  }

  lemma {:induction false} PlansCalculate(s0: Fused, results: set<ValueId>, rule: Rule, list: seq<NodeId>)
    ensures forall g :: g in Plans(s0, results, rule, list).groups ==> |Calculating(s0.node, g)| >= rule.minFuseOps
  {
    hide Calculating, Chosen, LeftOf, ComponentOf, TakesNothing, GivesNothing, InGroup, Candidate;
    if list != [] { PlansCalculate(s0, results, rule, list[..|list| - 1]); }
  }

  lemma CreatedCalculate(s0: Fused, results: set<ValueId>, rule: Rule, list: seq<NodeId>, s: Fused)
    requires GroupsCreated(s0, Plans(s0, results, rule, list).groups, s)
    ensures GroupsCalculate(s0, s, rule)
  {
    hide Plans;
    PlansCalculate(s0, results, rule, list);
    forall f | f in s.subgraph && f !in s0.subgraph && rule.minFuseOps > 0
      ensures exists n :: n in s.subgraph[f].nodes && n in s0.node && Calculates(s0.node[n].op)
    {
      var n :| n in Calculating(s0.node, s.subgraph[f].nodes);
    }
  }

  // ---- the numbers of the groups ----

  /** `made` are the groups in the order of their numbers, created or only marked.  The nodes of
      each have its number, and so has the node of a created one; all else is as it was. */
  ghost predicate Numbered(s0: Fused, marks0: map<NodeId, nat>, s: Fused, marks: map<NodeId, nat>,
                           made: seq<set<NodeId>>) {
    && AllMarked(s, marks, made) && CreatedAmong(s0, s, marks, made) && NumbersDiffer(s0, s, marks)
    && RestStays(s0, marks0, s, marks, made) && s0.subgraph.Keys <= s.subgraph.Keys
  }

  ghost predicate RestStays(s0: Fused, marks0: map<NodeId, nat>, s: Fused, marks: map<NodeId, nat>,
                            made: seq<set<NodeId>>) {
    forall n :: n in marks && !(n in marks0 && marks0[n] == marks[n]) ==>
      InOneOf(made, n) || (n in s.subgraph && n !in s0.subgraph)
  }

  lemma RestStaysMore(s0: Fused, marks0: map<NodeId, nat>, s: Fused, s': Fused, marks: map<NodeId, nat>,
                      marks': map<NodeId, nat>, made: seq<set<NodeId>>, group: set<NodeId>)
    requires RestStays(s0, marks0, s, marks, made) && s.subgraph.Keys <= s'.subgraph.Keys
    requires forall n :: n in marks' ==>
      (n in marks && marks'[n] == marks[n]) || n in group || (n in s'.subgraph && n !in s0.subgraph)
    ensures RestStays(s0, marks0, s', marks', made + [group])
  {
    InOneOfMore(made, group);
    hide InOneOf;
  }

  ghost predicate MarkedAs(marks: map<NodeId, nat>, group: set<NodeId>, id: nat) {
    forall n :: n in group ==> n in marks && marks[n] == id
  }

  ghost predicate AllMarked(s: Fused, marks: map<NodeId, nat>, made: seq<set<NodeId>>) {
    forall i :: 0 <= i < |made| ==> MarkedAs(marks, made[i], i + 1) && made[i] <= s.node.Keys
  }

  ghost predicate CreatedAs(made: seq<set<NodeId>>, marks: map<NodeId, nat>, f: NodeId, group: set<NodeId>) {
    f in marks && 0 < marks[f] <= |made| && made[marks[f] - 1] == group
  }

  ghost predicate CreatedAmong(s0: Fused, s: Fused, marks: map<NodeId, nat>, made: seq<set<NodeId>>) {
    forall f :: f in s.subgraph && f !in s0.subgraph ==> CreatedAs(made, marks, f, s.subgraph[f].nodes)
  }

  ghost predicate NumbersDiffer(s0: Fused, s: Fused, marks: map<NodeId, nat>) {
    forall f, h :: f in s.subgraph && f !in s0.subgraph && h in s.subgraph && h !in s0.subgraph && f != h ==>
      f in marks && h in marks && marks[f] != marks[h]
  }

  ghost predicate InOneOf(made: seq<set<NodeId>>, n: NodeId) {
    exists i :: 0 <= i < |made| && n in made[i]
  }

  lemma NumberedFirst(s: Fused, marks: map<NodeId, nat>)
    ensures Numbered(s, marks, s, marks, [])
  {
  }

  lemma InOneOfMore(made: seq<set<NodeId>>, group: set<NodeId>)
    ensures forall n :: InOneOf(made + [group], n) <==> InOneOf(made, n) || n in group
  {
    var more := made + [group];
    forall n ensures InOneOf(more, n) <==> InOneOf(made, n) || n in group {
      if InOneOf(made, n) {
        var i :| 0 <= i < |made| && n in made[i];
        assert more[i] == made[i];
      }
      if n in group { assert more[|made|] == group; }
    }
  }

  /** The members of the group get their mark, a node that is new may too, and no other node does. */
  ghost predicate NewMarks(s: Fused, marks: map<NodeId, nat>, marks': map<NodeId, nat>, group: set<NodeId>, id: nat) {
    && Unmarked(marks, group) && group <= s.node.Keys && group !! s.subgraph.Keys
    && (forall n :: n in group ==> n in marks' && marks'[n] == id)
    && (forall n :: n in s.node && n !in group && n in marks ==> n in marks' && marks'[n] == marks[n])
    && (forall f :: f in s.subgraph && f in marks ==> f in marks' && marks'[f] == marks[f])
  }

  lemma AllMarkedMore(s: Fused, s': Fused, marks: map<NodeId, nat>, marks': map<NodeId, nat>, made: seq<set<NodeId>>,
                      group: set<NodeId>)
    requires AllMarked(s, marks, made) && NewMarks(s, marks, marks', group, |made| + 1) && s.node.Keys <= s'.node.Keys
    ensures AllMarked(s', marks', made + [group])
  {
    var more := made + [group];
    forall i | 0 <= i < |more| ensures MarkedAs(marks', more[i], i + 1) && more[i] <= s'.node.Keys {
      if i < |made| {
        assert MarkedAs(marks, made[i], i + 1);
        forall n | n in made[i] ensures n in marks' && marks'[n] == i + 1 { assert MarkOf(marks, n) == i + 1; }
      }
    }
  }

  lemma CreatedAmongMore(s0: Fused, s: Fused, s': Fused, marks: map<NodeId, nat>, marks': map<NodeId, nat>,
                         made: seq<set<NodeId>>, group: set<NodeId>)
    requires CreatedAmong(s0, s, marks, made) && NewMarks(s, marks, marks', group, |made| + 1)
    requires forall f :: f in s.subgraph ==> f in s'.subgraph && s'.subgraph[f] == s.subgraph[f]
    requires forall f :: f in s'.subgraph && f !in s.subgraph ==>
      s'.subgraph[f].nodes == group && f in marks' && marks'[f] == |made| + 1
    ensures CreatedAmong(s0, s', marks', made + [group])
    ensures forall f :: f in s.subgraph && f !in s0.subgraph ==> f in marks' && marks'[f] <= |made|
  {
    hide Unmarked;
    forall f | f in s'.subgraph && f !in s0.subgraph
      ensures CreatedAs(made + [group], marks', f, s'.subgraph[f].nodes)
      ensures f in s.subgraph ==> f in marks' && marks'[f] <= |made|
    {
      if f in s.subgraph { assert CreatedAs(made, marks, f, s.subgraph[f].nodes); }
    }
  }

  lemma NumbersDifferMore(s0: Fused, s: Fused, s': Fused, marks: map<NodeId, nat>, marks': map<NodeId, nat>, id: nat)
    requires NumbersDiffer(s0, s, marks) && s.subgraph.Keys <= s'.subgraph.Keys
    requires forall f :: f in s.subgraph && f in marks ==> f in marks' && marks'[f] == marks[f]
    requires forall f :: f in s.subgraph && f !in s0.subgraph ==> f in marks' && marks'[f] < id
    requires forall f, h :: f in s'.subgraph && f !in s.subgraph && h in s'.subgraph && h !in s.subgraph ==> f == h
    requires forall f :: f in s'.subgraph && f !in s.subgraph ==> f in marks' && marks'[f] == id
    ensures NumbersDiffer(s0, s', marks')
  {
  }

  lemma NumberedDeclines(s0: Fused, marks0: map<NodeId, nat>, s: Fused, marks: map<NodeId, nat>,
                         marks': map<NodeId, nat>, made: seq<set<NodeId>>, group: set<NodeId>)
    requires Numbered(s0, marks0, s, marks, made) && Unmarked(marks, group) && group <= s.node.Keys
    requires group !! s.subgraph.Keys && marks' == marks + map n | n in group :: |made| + 1
    ensures Numbered(s0, marks0, s, marks', made + [group])
  {
    hide *;
    NumberedIs(s0, marks0, s, marks, made);
    OnlyGroupMarked(s, marks, marks', group, |made| + 1);
    AllMarkedMore(s, s, marks, marks', made, group);
    CreatedAmongMore(s0, s, s, marks, marks', made, group);
    NumbersDifferMore(s0, s, s, marks, marks', |made| + 1);
    RestStaysMore(s0, marks0, s, s, marks, marks', made, group);
    NumberedIs(s0, marks0, s, marks', made + [group]);
  }

  lemma NumberedIs(s0: Fused, marks0: map<NodeId, nat>, s: Fused, marks: map<NodeId, nat>, made: seq<set<NodeId>>)
    ensures Numbered(s0, marks0, s, marks, made) <==>
      AllMarked(s, marks, made) && CreatedAmong(s0, s, marks, made) && NumbersDiffer(s0, s, marks)
      && RestStays(s0, marks0, s, marks, made) && s0.subgraph.Keys <= s.subgraph.Keys
  {
    hide AllMarked, CreatedAmong, NumbersDiffer, RestStays;
  }

  lemma OnlyGroupMarked(s: Fused, marks: map<NodeId, nat>, marks': map<NodeId, nat>, group: set<NodeId>, id: nat)
    requires Unmarked(marks, group) && group <= s.node.Keys && group !! s.subgraph.Keys
    requires marks' == marks + map n | n in group :: id
    ensures NewMarks(s, marks, marks', group, id)
    ensures forall f :: f in s.subgraph && f in marks ==> f in marks' && marks'[f] == marks[f]
    ensures forall n :: n in marks' ==> (n in marks && marks'[n] == marks[n]) || n in group
  {
    hide Unmarked;
  }

  lemma NumberedCreates(s0: Fused, marks0: map<NodeId, nat>, s: Fused, t: Step, s': Fused, marks: map<NodeId, nat>,
                        marks': map<NodeId, nat>, made: seq<set<NodeId>>)
    requires Numbered(s0, marks0, s, marks, made) && Unmarked(marks, t.group)
    requires Applicable(s, t) && t.taken.Keys <= t.names.Keys && s' == Fuse(s, t)
    requires marks' == (marks + map n | n in t.group :: |made| + 1)[t.fused := |made| + 1]
    ensures Numbered(s0, marks0, s', marks', made + [t.group])
  {
    hide *;
    FuseGroups(s, t);
    NumberedIs(s0, marks0, s, marks, made);
    NewMarksNow(s, marks, marks', t, |made| + 1);
    AllMarkedMore(s, s', marks, marks', made, t.group);
    CreatedAmongMore(s0, s, s', marks, marks', made, t.group);
    NumbersDifferMore(s0, s, s', marks, marks', |made| + 1);
    RestStaysMore(s0, marks0, s, s', marks, marks', made, t.group);
    NumberedIs(s0, marks0, s', marks', made + [t.group]);
  }

  /** One subgraph more, and no node less. */
  lemma FuseGroups(s: Fused, t: Step)
    requires Applicable(s, t)
    ensures t.taken.Keys <= t.names.Keys && t.fused !in s.subgraph
    ensures
      var s' := Fuse(s, t);
      && s.node.Keys <= s'.node.Keys && s'.subgraph.Keys == s.subgraph.Keys + {t.fused}
      && s'.subgraph[t.fused].nodes == t.group && (forall f :: f in s.subgraph ==> s'.subgraph[f] == s.subgraph[f])
  {
    hide Applicable, Fuse;
    ApplicableParts(s, t);
    FuseParts(s, t);
  }

  lemma NewMarksNow(s: Fused, marks: map<NodeId, nat>, marks': map<NodeId, nat>, t: Step, id: nat)
    requires Applicable(s, t) && Unmarked(marks, t.group)
    requires marks' == (marks + map n | n in t.group :: id)[t.fused := id]
    ensures NewMarks(s, marks, marks', t.group, id)
    ensures forall f :: f in s.subgraph && f in marks ==> f in marks' && marks'[f] == marks[f]
    ensures t.fused in marks' && marks'[t.fused] == id
    ensures forall n :: n in marks' ==> (n in marks && marks'[n] == marks[n]) || n in t.group || n == t.fused
  {
    hide Applicable, Unmarked;
    ApplicableParts(s, t);
  }

  /** A group is created: all that is known of the loop carries on. */
  lemma CreatingGoesOn(s0: Fused, results: set<ValueId>, rule: Rule, p: Plan, s: Fused, t: Step, s': Fused,
                       marks0: map<NodeId, nat>, marks: map<NodeId, nat>, marks': map<NodeId, nat>, n: NodeId,
                       made: seq<set<NodeId>>, id: nat, canFuseInitializers: bool)
    requires id == |made| + 1
    requires Follows(s0, rule, p, s, marks) && Agrees(s0, results, rule, p, s, marks, n)
    requires Unmarked(marks, ComponentOf(s.node, rule, n))
    requires Applicable(s, t) && t.taken.Keys <= t.names.Keys && s' == Fuse(s, t) && InitializersUnwritten(s)
    requires t.group == Selection(s.node, ComponentOf(s.node, rule, n))
    requires !TakesNothing(s.node, t.group) && !GivesNothing(s.node, results, t.group)
    requires |Calculating(s.node, t.group)| >= rule.minFuseOps
    requires marks' == (marks + map m | m in t.group :: id)[t.fused := id]
    requires TakesAsAsked(s, t, canFuseInitializers) && s.initializer == s0.initializer
    requires AllGroupsFed(s0, s, canFuseInitializers) && Numbered(s0, marks0, s, marks, made)
    ensures Follows(s0, rule, Planned(s0, results, rule, p, n), s', marks')
    ensures AllGroupsFed(s0, s', canFuseInitializers) && Numbered(s0, marks0, s', marks', made + [t.group])
  {
    hide *;
    SelectedAreLeft(s0, results, rule, p, s, marks, n);
    AllGroupsFedMore(s0, s, t, s', canFuseInitializers);
    SelectionInside(s.node, ComponentOf(s.node, rule, n));
    NoneIsUnmarked(marks, ComponentOf(s.node, rule, n), t.group);
    FuseGroups(s, t);
    NumberedCreates(s0, marks0, s, t, s', marks, marks', made);
    PlanCreates(s0, results, rule, p, s, t, s', marks, marks', id, n);
  }

  lemma DecliningGoesOn(s0: Fused, results: set<ValueId>, rule: Rule, p: Plan, s: Fused, marks0: map<NodeId, nat>,
                        marks: map<NodeId, nat>, marks': map<NodeId, nat>, n: NodeId, made: seq<set<NodeId>>, id: nat)
    requires id == |made| + 1
    requires Follows(s0, rule, p, s, marks) && Agrees(s0, results, rule, p, s, marks, n)
    requires Unmarked(marks, ComponentOf(s.node, rule, n)) && Numbered(s0, marks0, s, marks, made)
    requires
      var group := Selection(s.node, ComponentOf(s.node, rule, n));
      && (TakesNothing(s.node, group) || GivesNothing(s.node, results, group))
      && |Calculating(s.node, group)| >= rule.minFuseOps && group <= s.node.Keys && group !! s.subgraph.Keys
      && marks' == marks + map m | m in group :: id
    ensures Follows(s0, rule, Planned(s0, results, rule, p, n), s, marks')
    ensures Numbered(s0, marks0, s, marks', made + [Selection(s.node, ComponentOf(s.node, rule, n))])
  {
    hide *;
    var group := Selection(s.node, ComponentOf(s.node, rule, n));
    SelectionInside(s.node, ComponentOf(s.node, rule, n));
    NoneIsUnmarked(marks, ComponentOf(s.node, rule, n), group);
    NumberedDeclines(s0, marks0, s, marks, marks', made, group);
    PlanDeclines(s0, results, rule, p, s, marks, marks', id, n);
  }

  lemma NoneIsUnmarked(marks: map<NodeId, nat>, nodes: set<NodeId>, fewer: set<NodeId>)
    requires Unmarked(marks, nodes) && fewer <= nodes
    ensures Unmarked(marks, fewer)
  {
  }

  /** In the end the new subgraphs are the planned groups. */
  lemma PlanEnds(s0: Fused, rule: Rule, p: Plan, s: Fused, marks: map<NodeId, nat>)
    requires Follows(s0, rule, p, s, marks)
    ensures !p.aborted && GroupsCreated(s0, p.groups, s)
  {
    hide Maps, Mirrors, MarksAs, GroupsCreated;
  }
}
