/** The dataflow IR of the compiler (compiler/graph.h, node.h, value.h): nodes read and
    write values, every value knows its readers and its producer.  A `Snapshot` is what the
    passes that do not change the graph look at; module `GraphIr` holds the mutable graph.
    An id stands for a C++ pointer. */
module Ir {
  type NodeId = nat
  type ValueId = nat

  /** What a value holds at run time. */
  datatype Data =
    | Null
    | Real(r: real)
    | Int(i: int)
    | Bool(b: bool)
    | Sequence(elems: seq<Data>)
    | Tensor(rows: seq<Data>)   // a tensor seen along its leading axis

  datatype Op =
    | Constant(c: Data)
    | Identity
    | Reshape
    | Relu
    | Add | Sub | Mul | Square | Div | Neg
    | AccumulateGrad
    | Shape
    | ReduceSumTo
    | Sum
    | SequenceConstruct
    | SequenceInsert
    | SequenceAt
    | SequencePop
    | SequenceLength
    | SplitToSequence
    | ConcatFromSequence
    | FusionGroup
    | Other(code: nat)          // every operator whose kernel is not modelled

  datatype Node = Node(op: Op, inputs: seq<ValueId>, outputs: seq<ValueId>)

  ghost predicate Distinct<T>(s: seq<T>) {
    forall i, j :: 0 <= i < j < |s| ==> s[i] != s[j]
  }

  function SetOf<T(==)>(s: seq<T>): set<T> {
    set x | x in s
  }

  function Reversed<T>(s: seq<T>): (r: seq<T>)
    ensures |r| == |s| && forall i {:trigger r[i]} :: 0 <= i < |s| ==> r[i] == s[|s| - 1 - i]
  {
    seq(|s|, i requires 0 <= i < |s| => s[|s| - 1 - i])
  }

  lemma ReversedTwice<T>(s: seq<T>)
    ensures Reversed(Reversed(s)) == s
    ensures forall x :: x in Reversed(s) <==> x in s
  {
    forall x | x in s ensures x in Reversed(s) {
      var k :| 0 <= k < |s| && s[k] == x;
      assert Reversed(s)[|s| - 1 - k] == x;
    }
  }

  ghost predicate Mentions(n: Node, v: ValueId) {
    v in n.inputs || v in n.outputs
  }

  /** No node mentions `v`. */
  ghost predicate Gone(node: map<NodeId, Node>, v: ValueId) {
    forall n :: n in node ==> !Mentions(node[n], v)
  }

  ghost predicate WrittenIn(node: map<NodeId, Node>, v: ValueId) {
    exists n :: n in node && v in node[n].outputs
  }

  ghost predicate ConstantsAreSources(node: map<NodeId, Node>) {
    forall n :: n in node && node[n].op.Constant? ==> node[n].inputs == [] && |node[n].outputs| == 1
  }

  /** `b` reads something that `a` writes. */
  ghost predicate Feeds(node: map<NodeId, Node>, a: NodeId, b: NodeId) {
    a in node && b in node && exists v :: v in node[a].outputs && v in node[b].inputs
  }

  /** Numbers of the nodes that grow along every edge. */
  ghost predicate Ranked(node: map<NodeId, Node>, rank: map<NodeId, nat>) {
    node.Keys <= rank.Keys && forall a, b :: Feeds(node, a, b) ==> rank[a] < rank[b]
  }

  datatype Snapshot = Snapshot(
    node: map<NodeId, Node>,
    users: map<ValueId, seq<NodeId>>,
    producer: map<ValueId, NodeId>,
    nulls: set<ValueId>)
  {
    function Users(v: ValueId): seq<NodeId> {
      if v in users then users[v] else []
    }

    /** How many inputs of node `n` are the value `v`. */
    ghost function Reads(n: NodeId, v: ValueId): nat {
      if n in node then multiset(node[n].inputs)[v] else 0
    }

    /** `users_` lists a node once for every time it reads the value. */
    ghost predicate DefUse() {
      forall n: NodeId, v: ValueId {:trigger Reads(n, v)} :: multiset(Users(v))[n] == Reads(n, v)
    }

    /** Every value is written by at most one node, and `producer_` names it. */
    ghost predicate Ssa() {
      && (forall v :: v in producer ==> producer[v] in node && v in node[producer[v]].outputs)
      && (forall n, i :: n in node && 0 <= i < |node[n].outputs| ==>
            node[n].outputs[i] in producer && producer[node[n].outputs[i]] == n)
      && (forall n :: n in node ==> Distinct(node[n].outputs))
    }

    /** Node `b` reads an output of node `a` that is not null. */
    ghost predicate Edge(a: NodeId, b: NodeId) {
      a in node && b in node && exists v :: v in node[b].inputs && v !in nulls && v in node[a].outputs
    }

    /** Nodes each of which reads the one before. */
    ghost predicate Chain(p: seq<NodeId>) {
      p != [] && forall i :: 0 < i < |p| ==> Edge(p[i - 1], p[i])
    }

    ghost predicate Ranks(within: set<NodeId>, rank: map<NodeId, nat>) {
      && within <= rank.Keys
      && forall a, b :: a in within && b in within && Edge(a, b) ==> rank[a] < rank[b]
    }

    /** No cycle among the nodes of `within`. */
    ghost predicate AcyclicOn(within: set<NodeId>) {
      exists rank :: Ranks(within, rank)
    }
  }

  lemma ChainNext(g: Snapshot, p: seq<NodeId>, n: NodeId)
    requires g.Chain(p) && g.Edge(p[|p| - 1], n)
    ensures g.Chain(p + [n])
  {
    forall i | 0 < i < |p + [n]| ensures g.Edge((p + [n])[i - 1], (p + [n])[i]) {
      if i < |p| { assert g.Edge(p[i - 1], p[i]); }
    }
  }

  /** A user of `v` is a node that reads `v`. */
  lemma UserReads(g: Snapshot, v: ValueId, n: NodeId)
    requires g.DefUse()
    ensures n in g.Users(v) <==> n in g.node && v in g.node[n].inputs
  {
    assert g.Reads(n, v) == multiset(g.Users(v))[n];
  }

  lemma DistinctConcat<T>(a: seq<T>, b: seq<T>)
    requires Distinct(a) && Distinct(b) && forall x :: x in a ==> x !in b
    ensures Distinct(a + b)
  {
    forall i, j | 0 <= i < j < |a + b| ensures (a + b)[i] != (a + b)[j] {
      if i < |a| <= j { assert (a + b)[i] in a && (a + b)[j] in b; }
    }
  }

  lemma DistinctMultiset<T>(s: seq<T>)
    ensures Distinct(s) <==> forall x :: multiset(s)[x] <= 1
  {
    if s == [] {
    } else {
      var init, last := s[..|s| - 1], s[|s| - 1];
      assert s == init + [last];
      DistinctMultiset(init);
      if Distinct(s) {
        assert Distinct(init);
        assert last !in init;
        assert multiset(init)[last] == 0;
      } else {
        var i, j :| 0 <= i < j < |s| && s[i] == s[j];
        if j < |init| {
          assert init[i] == init[j];
          assert !Distinct(init);
          var x :| multiset(init)[x] > 1;
          assert multiset(s)[x] > 1;
        } else {
          assert last == init[i];
          assert multiset(init)[last] > 0;
          assert multiset(s)[last] > 1;
        }
      }
    }
  }

  // ---- evaluation ----

  /** What every value holds in one run. */
  type Env = ValueId -> Data
  /** The kernels of the operators that are not modelled. */
  type Kernels = (nat, seq<Data>) -> seq<Data>

  ghost predicate Agree(keep: set<ValueId>, a: Env, b: Env) {
    forall v :: v in keep ==> a(v) == b(v)
  }

  /** `env` with one value changed. */
  function With(env: Env, v: ValueId, d: Data): Env {
    (w: ValueId) => if w == v then d else env(w)
  }

  function Vals(env: Env, vs: seq<ValueId>): (r: seq<Data>)
    ensures |r| == |vs| && forall i :: 0 <= i < |vs| ==> r[i] == env(vs[i])
  {
    seq(|vs|, i requires 0 <= i < |vs| => env(vs[i]))
  }

  /** A null gradient counts as zero. */
  function RealOf(d: Data): real {
    if d.Real? then d.r else 0.0
  }

  function SumOf(args: seq<Data>): real {
    if args == [] then 0.0 else SumOf(args[..|args| - 1]) + RealOf(args[|args| - 1])
  }

  function IntSum(args: seq<Data>): int {
    if args == [] then 0 else IntSum(args[..|args| - 1]) + if args[|args| - 1].Int? then args[|args| - 1].i else 0
  }

  predicate AllInts(args: seq<Data>) {
    forall i :: 0 <= i < |args| ==> args[i].Int?
  }

  /** The sum of integers, or of reals; one summand is its own sum. */
  function Total(args: seq<Data>): Data {
    if |args| == 1 then args[0]
    else if args != [] && AllInts(args) then Int(IntSum(args)) else Real(SumOf(args))
  }

  /** The outputs of an operator; [] when the operands do not fit it. */
  function Apply(kernels: Kernels, op: Op, args: seq<Data>): seq<Data> {
    match op
    case Constant(c) => [c]
    case Identity => args
    case Add =>
      if |args| == 2 && args[0].Int? && args[1].Int? then [Int(args[0].i + args[1].i)]
      else if |args| == 2 then [Real(RealOf(args[0]) + RealOf(args[1]))] else []
    case Sub => if |args| == 2 then [Real(RealOf(args[0]) - RealOf(args[1]))] else []
    case Mul => if |args| == 2 then [Real(RealOf(args[0]) * RealOf(args[1]))] else []
    case Div => if |args| == 2 && RealOf(args[1]) != 0.0 then [Real(RealOf(args[0]) / RealOf(args[1]))] else []
    case Square => if |args| == 1 then [Real(RealOf(args[0]) * RealOf(args[0]))] else []
    case Neg => if |args| == 1 then [Real(-RealOf(args[0]))] else []
    case AccumulateGrad => if |args| == 2 then [Real(RealOf(args[0]) + RealOf(args[1]))] else []
    case Shape => if |args| == 1 then [Tensor([])] else []
    case ReduceSumTo => if |args| == 2 then [Real(RealOf(args[0]))] else []   // equal shapes: nothing to reduce
    case Sum => [Total(args)]
    case SequenceConstruct => [Sequence(args)]
    case SequenceInsert => if |args| == 2 && args[0].Sequence? then [Sequence(args[0].elems + [args[1]])] else []
    case SequencePop =>
      if |args| == 1 && args[0].Sequence? && args[0].elems != [] then
        var s := args[0].elems;
        [Sequence(s[..|s| - 1]), s[|s| - 1]]
      else []
    case SequenceAt =>
      if |args| == 2 && args[0].Sequence? && args[1].Int? && 0 <= args[1].i < |args[0].elems| then
        [args[0].elems[args[1].i]]
      else []
    case SequenceLength => if |args| == 1 && args[0].Sequence? then [Int(|args[0].elems|)] else []
    case SplitToSequence => if |args| == 1 && args[0].Tensor? then [Sequence(args[0].rows)] else []
    case ConcatFromSequence => if |args| == 1 && args[0].Sequence? then [Tensor(args[0].elems)] else []
    case Reshape => kernels(0, args)
    case Relu => kernels(1, args)
    case Other(code) => kernels(code + 2, args)
    case _ => []
  }

  ghost predicate Holds(kernels: Kernels, n: Node, env: Env) {
    n.outputs == [] || Vals(env, n.outputs) == Apply(kernels, n.op, Vals(env, n.inputs))
  }

  lemma IdentityHolds(kernels: Kernels, env: Env, x: ValueId, y: ValueId)
    ensures Holds(kernels, Node(Identity, [x], [y]), env) <==> env(x) == env(y)
  {
    assert Vals(env, [x]) == [env(x)] && Vals(env, [y]) == [env(y)];
  }

  /** `env` is a run of the nodes: every node's outputs are what its operator makes of its inputs. */
  ghost predicate Solves(kernels: Kernels, node: map<NodeId, Node>, env: Env) {
    forall n :: n in node ==> Holds(kernels, node[n], env)
  }
}
