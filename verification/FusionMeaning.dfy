/** What a graph with fusion groups computes, and that forming one more group changes neither
    that nor the absence of cycles. */
module FusionMeaning {
  import opened Ir
  import opened Renaming
  import opened FusionCandidates
  import opened ClassifyValues

  /** Node::subgraph of a fusion group. */
  datatype SubGraph = SubGraph(
    nodes: set<NodeId>,
    inputs: seq<ValueId>,
    outputs: seq<ValueId>,
    initializer: map<ValueId, Data>)

  /** All attached nodes; `outer` are those of the graph itself, the others were migrated. */
  datatype Fused = Fused(
    node: map<NodeId, Node>,
    outer: set<NodeId>,
    subgraph: map<NodeId, SubGraph>,
    initializer: map<ValueId, Data>)

  ghost predicate InnerRun(kernels: Kernels, node: map<NodeId, Node>, sub: SubGraph, inner: Env) {
    && (forall n :: n in sub.nodes && n in node ==> Holds(kernels, node[n], inner))
    && (forall v :: v in sub.initializer ==> inner(v) == sub.initializer[v])
  }

  /** A fusion group runs its subgraph on its inputs. */
  ghost predicate GroupRuns(kernels: Kernels, node: map<NodeId, Node>, sub: SubGraph, group: Node, env: Env) {
    exists inner: Env :: InnerRun(kernels, node, sub, inner)
      && Vals(inner, sub.inputs) == Vals(env, group.inputs) && Vals(inner, sub.outputs) == Vals(env, group.outputs)
  }

  ghost predicate NodeRuns(kernels: Kernels, s: Fused, n: NodeId, env: Env)
    requires n in s.node
  {
    if n in s.subgraph then GroupRuns(kernels, s.node, s.subgraph[n], s.node[n], env) else
      Holds(kernels, s.node[n], env)
  }

  ghost predicate Runs(kernels: Kernels, s: Fused, env: Env) {
    && (forall n :: n in s.outer && n in s.node ==> NodeRuns(kernels, s, n, env))
    && (forall v :: v in s.initializer ==> env(v) == s.initializer[v])
  }

  /** Each run of `s` is matched by a run of `t` that agrees on `keep`. */
  ghost predicate Matched(kernels: Kernels, s: Fused, t: Fused, keep: set<ValueId>) {
    forall env: Env | Runs(kernels, s, env) :: exists env': Env :: Runs(kernels, t, env') && Agree(keep, env, env')
  }

  ghost predicate Equivalent(kernels: Kernels, s: Fused, t: Fused, keep: set<ValueId>) {
    Matched(kernels, s, t, keep) && Matched(kernels, t, s, keep)
  }

  lemma EquivalentSelf(kernels: Kernels, s: Fused, keep: set<ValueId>)
    ensures Equivalent(kernels, s, s, keep)
  {
    forall env: Env | Runs(kernels, s, env)
      ensures exists env': Env :: Runs(kernels, s, env') && Agree(keep, env, env')
    {
      assert Agree(keep, env, env);
    }
  }

  lemma MatchedTrans(kernels: Kernels, s: Fused, t: Fused, u: Fused, keep: set<ValueId>)
    requires Matched(kernels, s, t, keep) && Matched(kernels, t, u, keep)
    ensures Matched(kernels, s, u, keep)
  {
    hide Runs;
    forall env: Env | Runs(kernels, s, env)
      ensures exists env': Env :: Runs(kernels, u, env') && Agree(keep, env, env')
    {
      var mid: Env :| Runs(kernels, t, mid) && Agree(keep, env, mid);
      var env': Env :| Runs(kernels, u, env') && Agree(keep, mid, env');
      assert Agree(keep, env, env');
    }
  }

  // ---- one fusion step ----

  ghost predicate UniqueWriter(node: map<NodeId, Node>) {
    forall a, b, v :: a in node && b in node && v in node[a].outputs && v in node[b].outputs ==> a == b
  }

  ghost predicate Occurs(node: map<NodeId, Node>, v: ValueId) {
    exists n :: n in node && (v in node[n].inputs || v in node[n].outputs)
  }

  /** New names are used nowhere, not even twice. */
  ghost predicate FreshNames(node: map<NodeId, Node>, names: Names) {
    && (forall v, w :: v in names && w in names && names[v] == names[w] ==> v == w)
    && (forall v :: v in names ==> !Occurs(node, names[v]) && names[v] !in names)
  }

  /** The value that a name inside the group stands for. */
  ghost function Unname(names: Names, w: ValueId): ValueId {
    if v :| v in names && names[v] == w then v else w
  }

  lemma UnnameName(node: map<NodeId, Node>, names: Names, v: ValueId)
    requires FreshNames(node, names) && (v in names || Occurs(node, v))
    ensures Unname(names, NameOf(names, v)) == v
  {
  }

  /** One call of `CreateFusionGroup` that does create a group. */
  datatype Step = Step(
    results: set<ValueId>,
    group: set<NodeId>,
    inputs: set<ValueId>, outputs: set<ValueId>, temps: set<ValueId>,
    names: Names,
    fused: NodeId,
    inputSeq: seq<ValueId>, outputSeq: seq<ValueId>,
    taken: map<ValueId, Data>)      // initializers that moved into the group

  ghost function GroupNode(t: Step): Node {
    Node(FusionGroup, t.inputSeq, t.outputSeq)
  }

  ghost function InnerInitializers(t: Step): map<ValueId, Data>
    requires t.taken.Keys <= t.names.Keys
  {
    map w | w in (set v | v in t.taken :: t.names[v]) && Unname(t.names, w) in t.taken :: t.taken[Unname(t.names, w)]
  }

  ghost predicate Applicable(s: Fused, t: Step) {
    && s.outer <= s.node.Keys && t.group <= s.outer && t.group !! s.subgraph.Keys && t.fused !in s.node
    && t.fused !in s.subgraph
    && UniqueWriter(s.node)
    && Classified(s.node, t.results, t.group, t.inputs, t.outputs, t.temps)
    && t.names.Keys == t.inputs + t.outputs && FreshNames(s.node, t.names)
    && SetOf(t.inputSeq) == t.inputs - t.taken.Keys && SetOf(t.outputSeq) == t.outputs
    && t.taken.Keys <= t.inputs
    && (forall v :: v in t.taken ==> v in s.initializer && s.initializer[v] == t.taken[v])
    && (forall v :: v in s.initializer ==> !WrittenBy(s.node, t.group, v))
    && (forall v, w :: v in s.initializer && w in t.names ==> t.names[w] != v)
    && (forall f :: f in s.subgraph ==> s.subgraph[f].nodes !! s.outer && s.subgraph[f].nodes <= s.node.Keys)
  }

  ghost function Fuse(s: Fused, t: Step): Fused
    requires t.taken.Keys <= t.names.Keys
  {
    Fused(
      RenameGroup(t.names, s.node, t.group)[t.fused := GroupNode(t)],
      s.outer - t.group + {t.fused},
      s.subgraph[t.fused := SubGraph(t.group, RenameSeq(t.names, t.inputSeq), RenameSeq(t.names, t.outputSeq),
                                     InnerInitializers(t))],
      s.initializer)
  }

  lemma RenamedVals(names: Names, s: seq<ValueId>, env: Env, inner: Env)
    requires forall v :: v in s ==> inner(NameOf(names, v)) == env(v)
    ensures Vals(inner, RenameSeq(names, s)) == Vals(env, s)
  {
    forall i | 0 <= i < |s| ensures inner(NameOf(names, s[i])) == env(s[i]) { assert s[i] in s; }
  }

  lemma RenamedHolds(kernels: Kernels, n: Node, names: Names, env: Env, inner: Env)
    requires forall v :: v in n.inputs || v in n.outputs ==> inner(NameOf(names, v)) == env(v)
    ensures Holds(kernels, n, env) <==> Holds(kernels, RenameNode(names, n), inner)
  {
    RenamedVals(names, n.inputs, env, inner);
    RenamedVals(names, n.outputs, env, inner);
  }

  lemma SameHolds(kernels: Kernels, n: Node, env: Env, env': Env)
    requires forall v :: v in n.inputs || v in n.outputs ==> env(v) == env'(v)
    ensures Holds(kernels, n, env) <==> Holds(kernels, n, env')
  {
    SameVals(n.inputs, env, env');
    SameVals(n.outputs, env, env');
  }

  lemma SameVals(s: seq<ValueId>, env: Env, env': Env)
    requires forall v :: v in s ==> env(v) == env'(v)
    ensures Vals(env, s) == Vals(env', s)
  {
    forall i | 0 <= i < |s| ensures env(s[i]) == env'(s[i]) { assert s[i] in s; }
  }

  lemma OldGroupNodes(s: Fused, t: Step, f: NodeId, n: NodeId)
    requires Applicable(s, t) && f in s.subgraph && n in s.subgraph[f].nodes
    ensures n in s.node && n in Fuse(s, t).node && Fuse(s, t).node[n] == s.node[n]
  {
  }

  /** Groups formed earlier are not touched. */
  lemma OldGroupRuns(kernels: Kernels, s: Fused, t: Step, f: NodeId, env: Env, env': Env)
    requires Applicable(s, t) && f in s.subgraph && f in s.node && f != t.fused
    requires forall v :: v in s.node[f].inputs || v in s.node[f].outputs ==> env(v) == env'(v)
    ensures GroupRuns(kernels, s.node, s.subgraph[f], s.node[f], env) <==>
      GroupRuns(kernels, Fuse(s, t).node, s.subgraph[f], s.node[f], env')
  {
    hide Applicable, Fuse, Holds;
    StepInitializers(s, t);
    var sub, node' := s.subgraph[f], Fuse(s, t).node;
    SameVals(s.node[f].inputs, env, env');
    SameVals(s.node[f].outputs, env, env');
    forall n | n in sub.nodes ensures n in s.node && n in node' && node'[n] == s.node[n] { OldGroupNodes(s, t, f, n); }
    forall inner: Env ensures InnerRun(kernels, s.node, sub, inner) <==> InnerRun(kernels, node', sub, inner) {}
  }

  lemma NewGroupRuns(kernels: Kernels, s: Fused, t: Step, env: Env)
    requires Applicable(s, t) && Runs(kernels, s, env)
    ensures GroupRuns(kernels, Fuse(s, t).node, Fuse(s, t).subgraph[t.fused], GroupNode(t), env)
  {
    hide Applicable, InnerRun, RenameGroup, InnerEnv;
    StepInitializers(s, t);
    NewInnerRun(kernels, s, t, env);
    NewInterface(s, t, env);
  }

  lemma NewInnerRun(kernels: Kernels, s: Fused, t: Step, env: Env)
    requires Applicable(s, t) && Runs(kernels, s, env)
    ensures InnerRun(kernels, Fuse(s, t).node, Fuse(s, t).subgraph[t.fused], InnerEnv(t.names, env))
  {
    var inner := InnerEnv(t.names, env);
    forall n | n in t.group && n in s.node ensures Holds(kernels, RenameNode(t.names, s.node[n]), inner) {
      MemberHolds(kernels, s, t, env, n);
      InnerNodeRuns(kernels, s.node, t.names, n, env);
    }
    TakenHold(kernels, s, t, env);
    hide RenameNode, InnerEnv, Applicable, Runs, Holds, Unname, NodeRuns, GroupRuns;
    ApplicableGroup(s, t);
  }

  lemma ApplicableGroup(s: Fused, t: Step)
    requires Applicable(s, t)
    ensures t.group <= s.node.Keys && t.fused !in s.node
  {
  }

  lemma MemberHolds(kernels: Kernels, s: Fused, t: Step, env: Env, n: NodeId)
    requires Applicable(s, t) && Runs(kernels, s, env) && n in t.group && n in s.node
    ensures FreshNames(s.node, t.names) && Holds(kernels, s.node[n], env)
  {
    hide FreshNames, Holds, GroupRuns, UniqueWriter, Classified;
    assert NodeRuns(kernels, s, n, env);
  }

  lemma TakenHold(kernels: Kernels, s: Fused, t: Step, env: Env)
    requires Applicable(s, t) && Runs(kernels, s, env)
    ensures t.taken.Keys <= t.names.Keys
    ensures
      var taken := InnerInitializers(t);
      forall v :: v in taken ==> InnerEnv(t.names, env)(v) == taken[v]
  {
    hide NodeRuns, UniqueWriter, Classified, FreshNames;
  }

  lemma NewInterface(s: Fused, t: Step, env: Env)
    requires Applicable(s, t)
    ensures Vals(InnerEnv(t.names, env), RenameSeq(t.names, t.inputSeq)) == Vals(env, t.inputSeq)
    ensures Vals(InnerEnv(t.names, env), RenameSeq(t.names, t.outputSeq)) == Vals(env, t.outputSeq)
  {
    forall v | v in t.names
      ensures InnerEnv(t.names, env)(NameOf(t.names, v)) == env(v)
    {
      UnnameName(s.node, t.names, v);
    }
    assert forall v :: v in t.inputSeq ==> v in SetOf(t.inputSeq);
    assert forall v :: v in t.outputSeq ==> v in SetOf(t.outputSeq);
    hide Unname, InnerEnv;
    RenamedVals(t.names, t.inputSeq, env, InnerEnv(t.names, env));
    RenamedVals(t.names, t.outputSeq, env, InnerEnv(t.names, env));
  }

  ghost function InnerEnv(names: Names, env: Env): Env {
    (w: ValueId) => env(Unname(names, w))
  }

  lemma InnerNodeRuns(kernels: Kernels, node: map<NodeId, Node>, names: Names, n: NodeId, env: Env)
    requires FreshNames(node, names) && n in node && Holds(kernels, node[n], env)
    ensures Holds(kernels, RenameNode(names, node[n]), InnerEnv(names, env))
  {
    forall v | v in node[n].inputs || v in node[n].outputs ensures InnerEnv(names, env)(NameOf(names, v)) == env(v) {
      assert Occurs(node, v);
      UnnameName(node, names, v);
    }
    RenamedHolds(kernels, node[n], names, env, InnerEnv(names, env));
  }

  lemma ForwardRun(kernels: Kernels, s: Fused, t: Step, env: Env)
    requires Applicable(s, t) && Runs(kernels, s, env)
    ensures Runs(kernels, Fuse(s, t), env)
  {
    hide Applicable, NodeRuns, GroupRuns, RenameGroup;
    StepInitializers(s, t);
    forall n | n in Fuse(s, t).outer && n in Fuse(s, t).node ensures NodeRuns(kernels, Fuse(s, t), n, env) {
      if n == t.fused {
        FusedNodeForward(kernels, s, t, env);
      } else {
        OuterNodeForward(kernels, s, t, n, env);
      }
    }
  }

  lemma FusedNodeForward(kernels: Kernels, s: Fused, t: Step, env: Env)
    requires Applicable(s, t) && Runs(kernels, s, env)
    ensures t.fused in Fuse(s, t).node && NodeRuns(kernels, Fuse(s, t), t.fused, env)
  {
    hide Applicable, GroupRuns;
    StepInitializers(s, t);
    NewGroupRuns(kernels, s, t, env);
  }

  lemma OuterNodeForward(kernels: Kernels, s: Fused, t: Step, n: NodeId, env: Env)
    requires Applicable(s, t) && n in s.outer && n !in t.group && n in s.node && NodeRuns(kernels, s, n, env)
    ensures n in Fuse(s, t).node && NodeRuns(kernels, Fuse(s, t), n, env)
  {
    hide Applicable, GroupRuns;
    StepInitializers(s, t);
    if n in s.subgraph { OldGroupRuns(kernels, s, t, n, env, env); }
  }

  ghost function BackEnv(t: Step, env': Env, inner: Env): Env {
    (v: ValueId) => if v in t.temps then inner(v) else env'(v)
  }

  lemma NewGroupInner(kernels: Kernels, s: Fused, t: Step, env': Env) returns (inner: Env)
    requires Applicable(s, t) && Runs(kernels, Fuse(s, t), env')
    ensures InnerRun(kernels, Fuse(s, t).node, Fuse(s, t).subgraph[t.fused], inner)
    ensures forall v :: v in t.names ==> inner(t.names[v]) == env'(v)
  {
    var s' := Fuse(s, t);
    var sub := s'.subgraph[t.fused];
    assert NodeRuns(kernels, s', t.fused, env');
    inner :| InnerRun(kernels, s'.node, sub, inner)
      && Vals(inner, sub.inputs) == Vals(env', t.inputSeq) && Vals(inner, sub.outputs) == Vals(env', t.outputSeq);
    InnerAgrees(s, t, env', inner);
  }

  /** From a run of the fused graph: values that only the group knew get their inner value back. */
  lemma BackwardRun(kernels: Kernels, s: Fused, t: Step, env': Env) returns (env: Env)
    requires Applicable(s, t) && Runs(kernels, Fuse(s, t), env')
    ensures Runs(kernels, s, env) && forall v :: v !in t.temps ==> env(v) == env'(v)
  {
    hide Applicable, NodeRuns, InnerRun, GroupRuns, Fuse, RenameGroup;
    var inner := NewGroupInner(kernels, s, t, env');
    env := BackEnv(t, env', inner);
    StepInitializers(s, t);
    FusedInitializers(kernels, s, t, env');
    forall n | n in s.outer && n in s.node ensures NodeRuns(kernels, s, n, env) {
      if n in t.group {
        GroupNodeBack(kernels, s, t, env, env', inner, n);
      } else {
        OuterNodeRuns(kernels, s, t, env', n);
        OuterNodeBack(kernels, s, t, env, env', n);
      }
    }
  }

  lemma FusedInitializers(kernels: Kernels, s: Fused, t: Step, env': Env)
    requires t.taken.Keys <= t.names.Keys && Runs(kernels, Fuse(s, t), env')
    ensures forall v :: v in s.initializer ==> env'(v) == s.initializer[v]
  {
  }

  lemma OuterNodeRuns(kernels: Kernels, s: Fused, t: Step, env': Env, n: NodeId)
    requires Applicable(s, t) && Runs(kernels, Fuse(s, t), env') && n in s.outer && n !in t.group
    ensures n in Fuse(s, t).node && NodeRuns(kernels, Fuse(s, t), n, env')
  {
  }

  lemma StepInitializers(s: Fused, t: Step)
    requires Applicable(s, t)
    ensures forall v :: v in s.initializer ==> v !in t.temps
    ensures s.outer <= s.node.Keys && t.fused !in s.node && t.taken.Keys <= t.names.Keys
  {
  }

  lemma InnerAgrees(s: Fused, t: Step, env': Env, inner: Env)
    requires Applicable(s, t)
    requires Vals(inner, RenameSeq(t.names, t.inputSeq)) == Vals(env', t.inputSeq)
    requires Vals(inner, RenameSeq(t.names, t.outputSeq)) == Vals(env', t.outputSeq)
    requires forall w :: w in InnerInitializers(t) ==> inner(w) == InnerInitializers(t)[w]
    requires forall v :: v in s.initializer ==> env'(v) == s.initializer[v]
    ensures forall v :: v in t.names ==> inner(t.names[v]) == env'(v)
  {
    forall v | v in t.names ensures inner(t.names[v]) == env'(v) {
      if v in t.taken {
        UnnameName(s.node, t.names, v);
        assert t.names[v] in InnerInitializers(t);
      } else if v in t.inputs {
        assert v in SetOf(t.inputSeq);
        SameAt(t.names, t.inputSeq, env', inner, v);
      } else {
        assert v in SetOf(t.outputSeq);
        SameAt(t.names, t.outputSeq, env', inner, v);
      }
    }
  }

  lemma SameAt(names: Names, s: seq<ValueId>, env: Env, inner: Env, v: ValueId)
    requires Vals(inner, RenameSeq(names, s)) == Vals(env, s) && v in s
    ensures inner(NameOf(names, v)) == env(v)
  {
    var i :| 0 <= i < |s| && s[i] == v;
    assert Vals(inner, RenameSeq(names, s))[i] == Vals(env, s)[i];
  }

  lemma GroupNodeBack(kernels: Kernels, s: Fused, t: Step, env: Env, env': Env, inner: Env, n: NodeId)
    requires Applicable(s, t) && n in t.group && n in s.node
    requires InnerRun(kernels, Fuse(s, t).node, Fuse(s, t).subgraph[t.fused], inner)
    requires forall v :: env(v) == if v in t.temps then inner(v) else env'(v)
    requires forall v :: v in t.names ==> inner(t.names[v]) == env'(v)
    ensures NodeRuns(kernels, s, n, env)
  {
    hide InnerRun, RenameNode, Holds, Fuse, Applicable;
    PlainMember(kernels, s, t, env, n);
    MemberRuns(kernels, s, t, inner, n);
    forall v | v in s.node[n].inputs || v in s.node[n].outputs ensures inner(NameOf(t.names, v)) == env(v) {
      GroupValue(s, t, n, v);
    }
    RenamedHolds(kernels, s.node[n], t.names, env, inner);
  }

  lemma PlainMember(kernels: Kernels, s: Fused, t: Step, env: Env, n: NodeId)
    requires Applicable(s, t) && n in t.group && n in s.node
    ensures NodeRuns(kernels, s, n, env) <==> Holds(kernels, s.node[n], env)
  {
    hide Holds, GroupRuns, FreshNames, UniqueWriter, Classified;
  }

  lemma MemberRuns(kernels: Kernels, s: Fused, t: Step, inner: Env, n: NodeId)
    requires Applicable(s, t) && n in t.group && n in s.node
    requires InnerRun(kernels, Fuse(s, t).node, Fuse(s, t).subgraph[t.fused], inner)
    ensures Holds(kernels, RenameNode(t.names, s.node[n]), inner)
  {
    hide Holds, RenameNode, FreshNames, UniqueWriter, Classified, InnerInitializers;
  }

  lemma GroupValue(s: Fused, t: Step, n: NodeId, v: ValueId)
    requires Applicable(s, t) && n in t.group && n in s.node && (v in s.node[n].inputs || v in s.node[n].outputs)
    ensures v !in t.names <==> v in t.temps
  {
    assert v in s.node[n].inputs ==> ReadBy(s.node, t.group, v);
    assert v in s.node[n].outputs ==> WrittenBy(s.node, t.group, v);
  }

  lemma OuterNodeBack(kernels: Kernels, s: Fused, t: Step, env: Env, env': Env, n: NodeId)
    requires Applicable(s, t) && n in s.outer && n !in t.group
    requires NodeRuns(kernels, Fuse(s, t), n, env')
    requires forall v :: v !in t.temps ==> env(v) == env'(v)
    ensures NodeRuns(kernels, s, n, env)
  {
    forall v | v in s.node[n].inputs || v in s.node[n].outputs ensures env(v) == env'(v) {
      assert v in s.node[n].inputs ==> UsedOutside(s.node, t.group, v);
    }
    if n in s.subgraph {
      OldGroupRuns(kernels, s, t, n, env, env');
    } else {
      SameHolds(kernels, s.node[n], env, env');
    }
  }

  /** Fusing keeps the meaning of all values but the group's own temporaries. */
  lemma FuseMatchesForward(kernels: Kernels, s: Fused, t: Step, keep: set<ValueId>)
    requires Applicable(s, t)
    ensures Matched(kernels, s, Fuse(s, t), keep)
  {
    var s' := Fuse(s, t);
    hide Runs, Fuse, Applicable;
    forall env: Env | Runs(kernels, s, env)
      ensures exists env': Env :: Runs(kernels, s', env') && Agree(keep, env, env')
    {
      ForwardRun(kernels, s, t, env);
      assert Agree(keep, env, env);
    }
  }

  lemma FuseMatchesBackward(kernels: Kernels, s: Fused, t: Step, keep: set<ValueId>)
    requires Applicable(s, t) && keep !! t.temps
    ensures Matched(kernels, Fuse(s, t), s, keep)
  {
    var s' := Fuse(s, t);
    hide Runs, Fuse, Applicable;
    forall env': Env | Runs(kernels, s', env')
      ensures exists env: Env :: Runs(kernels, s, env) && Agree(keep, env', env)
    {
      var env := BackwardRun(kernels, s, t, env');
      assert Agree(keep, env', env);
    }
  }

  lemma FuseIsEquivalent(kernels: Kernels, s: Fused, t: Step, keep: set<ValueId>)
    requires Applicable(s, t) && keep !! t.temps
    ensures Equivalent(kernels, s, Fuse(s, t), keep)
  {
    hide Runs, Fuse, Matched;
    FuseMatchesForward(kernels, s, t, keep);
    FuseMatchesBackward(kernels, s, t, keep);
  }

  // ---- no cycles ----

  /** A value in the fused graph: old outside the group, renamed inside. */
  ghost predicate Stands(s: Fused, t: Step, n: NodeId, y: ValueId, x: ValueId) {
    x == if n in t.group then NameOf(t.names, y) else y
  }

  lemma WrittenName(s: Fused, t: Step, a: NodeId, x: ValueId) returns (y: ValueId)
    requires a in s.node && t.taken.Keys <= t.names.Keys && x in Fuse(s, t).node[a].outputs && a != t.fused
    ensures y in s.node[a].outputs && Stands(s, t, a, y, x)
  {
    RenamedMember(t.names, s.node[a].outputs, x);
    y := x;
    if a in t.group { y :| y in s.node[a].outputs && NameOf(t.names, y) == x; }
  }

  lemma ReadName(s: Fused, t: Step, b: NodeId, x: ValueId) returns (y: ValueId)
    requires b in s.node && t.taken.Keys <= t.names.Keys && x in Fuse(s, t).node[b].inputs && b != t.fused
    ensures y in s.node[b].inputs && Stands(s, t, b, y, x)
  {
    RenamedMember(t.names, s.node[b].inputs, x);
    y := x;
    if b in t.group { y :| y in s.node[b].inputs && NameOf(t.names, y) == x; }
  }

  /** A new name is neither renamed itself nor the name of an old value. */
  lemma NamesAreNew(node: map<NodeId, Node>, names: Names, y: ValueId)
    requires FreshNames(node, names) && Occurs(node, y)
    ensures NameOf(names, y) !in names && (Occurs(node, NameOf(names, y)) ==> NameOf(names, y) == y && y !in names)
  {
  }

  lemma NamesDiffer(node: map<NodeId, Node>, names: Names, y: ValueId, z: ValueId)
    requires FreshNames(node, names) && Occurs(node, y) && Occurs(node, z) && NameOf(names, y) == NameOf(names, z)
    ensures y == z
  {
  }

  lemma GroupOutput(s: Fused, t: Step, x: ValueId) returns (k: NodeId)
    requires Applicable(s, t) && x in t.outputSeq
    ensures x in t.names && x !in t.inputSeq && k in t.group && k in s.node && x in s.node[k].outputs
    ensures Occurs(s.node, x)
  {
    assert x in SetOf(t.outputSeq) && (x in t.inputSeq ==> x in SetOf(t.inputSeq));
    k :| k in t.group && k in s.node && x in s.node[k].outputs;
  }

  lemma GroupInput(s: Fused, t: Step, x: ValueId) returns (k: NodeId)
    requires Applicable(s, t) && x in t.inputSeq
    ensures x in t.names && k in t.group && k in s.node && x in s.node[k].inputs && Occurs(s.node, x)
    ensures forall n :: n in t.group && n in s.node ==> x !in s.node[n].outputs
  {
    assert x in SetOf(t.inputSeq);
    k :| k in t.group && k in s.node && x in s.node[k].inputs;
    assert forall n :: n in t.group && n in s.node && x in s.node[n].outputs ==> WrittenBy(s.node, t.group, x);
  }

  /** A value that keeps its name in the group and is seen outside would be an input or an output. */
  lemma SeenOutside(s: Fused, t: Step, y: ValueId, a: NodeId, b: NodeId)
    requires Applicable(s, t) && y !in t.names && a in s.node && b in s.node
    requires y in s.node[a].outputs && y in s.node[b].inputs
    ensures a in t.group <==> b in t.group
  {
    assert a in t.group ==> WrittenBy(s.node, t.group, y);
    assert b !in t.group ==> UsedOutside(s.node, t.group, y);
    assert b in t.group ==> ReadBy(s.node, t.group, y);
  }

  lemma StepNames(s: Fused, t: Step)
    requires Applicable(s, t)
    ensures t.taken.Keys <= t.names.Keys && FreshNames(s.node, t.names) && t.group <= s.node.Keys && t.fused !in s.node
  {
  }

  /** A read between two of the original nodes: nothing crosses the border of the group. */
  lemma FeedsOld(s: Fused, t: Step, a: NodeId, b: NodeId)
    requires Applicable(s, t) && Feeds(Fuse(s, t).node, a, b) && a != t.fused && b != t.fused
    ensures Feeds(s.node, a, b) && (a in t.group <==> b in t.group)
  {
    hide Applicable, FreshNames;
    StepNames(s, t);
    var x :| x in Fuse(s, t).node[a].outputs && x in Fuse(s, t).node[b].inputs;
    var y := WrittenName(s, t, a, x);
    var z := ReadName(s, t, b, x);
    assert Occurs(s.node, y) && Occurs(s.node, z);
    NamesAreNew(s.node, t.names, y);
    NamesAreNew(s.node, t.names, z);
    if a in t.group && b in t.group {
      NamesDiffer(s.node, t.names, y, z);
    } else if a in t.group || b in t.group {
      SeenOutside(s, t, y, a, b);
    }
  }

  /** What reads from the new node read from a node of the group. */
  lemma FeedsFromGroup(s: Fused, t: Step, b: NodeId) returns (k: NodeId)
    requires Applicable(s, t) && Feeds(Fuse(s, t).node, t.fused, b)
    ensures b != t.fused && b !in t.group && k in t.group && Feeds(s.node, k, b)
  {
    hide Applicable, FreshNames;
    StepNames(s, t);
    var x :| x in t.outputSeq && x in Fuse(s, t).node[b].inputs;
    k := GroupOutput(s, t, x);
    var z := ReadName(s, t, b, x);
    assert Occurs(s.node, z);
    NamesAreNew(s.node, t.names, z);
  }

  lemma FeedsIntoGroup(s: Fused, t: Step, a: NodeId) returns (k: NodeId)
    requires Applicable(s, t) && Feeds(Fuse(s, t).node, a, t.fused)
    ensures a != t.fused && a !in t.group && k in t.group && Feeds(s.node, a, k)
  {
    hide Applicable, FreshNames;
    StepNames(s, t);
    var x :| x in Fuse(s, t).node[a].outputs && x in t.inputSeq;
    k := GroupInput(s, t, x);
    if a == t.fused {
      var _ := GroupOutput(s, t, x);
    } else {
      var y := WrittenName(s, t, a, x);
      assert Occurs(s.node, y);
      NamesAreNew(s.node, t.names, y);
    }
  }

  /** The order of the nodes before, in the group, and beyond it. */
  ghost function NewRank(t: Step, beyond: set<NodeId>, rank: map<NodeId, nat>, top: nat, n: NodeId): nat
    requires n != t.fused ==> n in rank
  {
    if n == t.fused then top else if n in beyond then top + 1 + rank[n] else rank[n]
  }

  ghost function FusedRank(s: Fused, t: Step, beyond: set<NodeId>, rank: map<NodeId, nat>, top: nat): map<NodeId, nat>
    requires s.node.Keys <= rank.Keys
  {
    map n | n in s.node.Keys + {t.fused} :: NewRank(t, beyond, rank, top, n)
  }

  lemma FuseKeys(s: Fused, t: Step)
    requires t.taken.Keys <= t.names.Keys
    ensures Fuse(s, t).node.Keys == s.node.Keys + {t.fused}
  {
  }

  lemma FeedsKeys(s: Fused, t: Step, a: NodeId, b: NodeId)
    requires t.taken.Keys <= t.names.Keys && Feeds(Fuse(s, t).node, a, b)
    ensures a in s.node.Keys + {t.fused} && b in s.node.Keys + {t.fused}
  {
  }

  lemma FusedEdge(s: Fused, t: Step, beyond: set<NodeId>, rank: map<NodeId, nat>, top: nat, a: NodeId, b: NodeId)
    requires Applicable(s, t) && Ranked(s.node, rank) && Separated(s.node, t.group, beyond)
    requires forall n :: n in s.node ==> rank[n] < top
    requires a in s.node.Keys + {t.fused} && b in s.node.Keys + {t.fused} && Feeds(Fuse(s, t).node, a, b)
    ensures NewRank(t, beyond, rank, top, a) < NewRank(t, beyond, rank, top, b)
  {
    hide Applicable, FreshNames, Fuse, Feeds;
    if a == t.fused {
      var k := FeedsFromGroup(s, t, b);
    } else if b == t.fused {
      var k := FeedsIntoGroup(s, t, a);
    } else {
      FeedsOld(s, t, a, b);
    }
  }

  /** Contracting a separated group leaves a graph without cycles. */
  lemma FuseIsAcyclic(s: Fused, t: Step, beyond: set<NodeId>, rank: map<NodeId, nat>, top: nat)
    requires Applicable(s, t) && Ranked(s.node, rank) && Separated(s.node, t.group, beyond)
    requires forall n :: n in s.node ==> rank[n] < top
    ensures Ranked(Fuse(s, t).node, FusedRank(s, t, beyond, rank, top))
  {
    hide Applicable, FreshNames, Fuse, Feeds, Separated, NewRank, RenameGroup;
    StepNames(s, t);
    FuseKeys(s, t);
    forall a, b | Feeds(Fuse(s, t).node, a, b)
      ensures
        var rank' := FusedRank(s, t, beyond, rank, top);
        a in rank' && b in rank' && rank'[a] < rank'[b]
    {
      FeedsKeys(s, t, a, b);
      FusedEdge(s, t, beyond, rank, top, a, b);
    }
  }
}
