/** compiler/memory_simulator.cc: memory in use along a schedule. */
module MemorySimulator {
  import opened Ir

  // ---- sums over value ids ----

  ghost function SumTo(bound: nat, f: ValueId -> int): int {
    if bound == 0 then 0 else SumTo(bound - 1, f) + f(bound - 1)
  }

  /** Functions that differ at one value have sums that differ as much. */
  lemma {:induction false} SumChange(bound: nat, f: ValueId -> int, g: ValueId -> int, v: ValueId)
    requires v < bound && forall w: ValueId :: w < bound && w != v ==> f(w) == g(w)
    ensures SumTo(bound, g) == SumTo(bound, f) + g(v) - f(v)
  {
    if v == bound - 1 { SumSame(bound - 1, f, g); } else { SumChange(bound - 1, f, g, v); }
  }

  lemma {:induction false} SumSame(bound: nat, f: ValueId -> int, g: ValueId -> int)
    requires forall w: ValueId :: w < bound ==> f(w) == g(w)
    ensures SumTo(bound, f) == SumTo(bound, g)
  {
    if bound > 0 { SumSame(bound - 1, f, g); }
  }

  lemma {:induction false} SumMonotone(bound: nat, f: ValueId -> int, g: ValueId -> int)
    requires forall w: ValueId :: w < bound ==> f(w) <= g(w)
    ensures SumTo(bound, f) <= SumTo(bound, g)
  {
    if bound > 0 { SumMonotone(bound - 1, f, g); }
  }

  // ---- what is simulated ----

  /** A graph with sizes and a schedule.  A size is -1 when it is not known. */
  datatype Problem = Problem(g: Snapshot, necessary: seq<ValueId>, inputs: set<ValueId>, parameters: set<ValueId>,
                             nbytes: ValueId -> int, schedule: seq<NodeId>)
  {
    /** The inputs among the necessary values; they are allocated first. */
    function Initial(i: nat): seq<ValueId>
      requires i <= |necessary|
    {
      if i == 0 then [] else Initial(i - 1) + if necessary[i - 1] in inputs then [necessary[i - 1]] else []
    }

    /** All values that the first `k` scheduled nodes read, or write. */
    function Read(k: nat): seq<ValueId>
      requires k <= |schedule| && forall n :: n in schedule ==> n in g.node
    {
      if k == 0 then [] else Read(k - 1) + (assert schedule[k - 1] in schedule; g.node[schedule[k - 1]].inputs)
    }

    function Written(k: nat): seq<ValueId>
      requires k <= |schedule| && forall n :: n in schedule ==> n in g.node
    {
      if k == 0 then Initial(|necessary|)
      else Written(k - 1) + (assert schedule[k - 1] in schedule; g.node[schedule[k - 1]].outputs)
    }

    function Inputs(k: nat): seq<ValueId>
      requires k < |schedule| && forall n :: n in schedule ==> n in g.node
    {
      assert schedule[k] in schedule;
      g.node[schedule[k]].inputs
    }

    function Outputs(k: nat): seq<ValueId>
      requires k < |schedule| && forall n :: n in schedule ==> n in g.node
    {
      assert schedule[k] in schedule;
      g.node[schedule[k]].outputs
    }

    /** Initial number of users; parameters are never freed. */
    function Uses(v: ValueId): nat {
      |g.Users(v)| + if v in inputs && v in parameters then 1 else 0
    }

    /** Once all its users have run, a value is freed. */
    ghost predicate Freed(read: seq<ValueId>, v: ValueId) {
      v in necessary && v in read && multiset(read)[v] == Uses(v)
    }

    /** What a value adds to the simulated memory: its size while it is in use; a freed value
        whose size is not known leaves one byte behind. */
    ghost function Charge(written: seq<ValueId>, read: seq<ValueId>): ValueId -> int {
      (v: ValueId) =>
        if Freed(read, v) then (if nbytes(v) < 0 then 1 else 0)
        else if v in written && nbytes(v) >= 0 then nbytes(v) else 0
    }

    /** The schedule is topological and lists nodes once; values are written once. */
    ghost predicate Fits(bound: nat) {
      && g.DefUse() && Distinct(necessary) && Distinct(schedule) && parameters <= inputs
      && (forall n :: n in schedule ==> n in g.node)
      && Distinct(Written(|schedule|))
      && (forall v :: v in Written(|schedule|) || v in necessary ==> v < bound)
      && (forall n, v :: n in schedule && v in g.node[n].inputs ==> v < bound)
      && (forall v: ValueId :: nbytes(v) >= -1)
      && (forall k :: 0 <= k < |schedule| ==> ReadsReady(k))
    }

    /** Necessary values that a node reads are allocated before. */
    ghost predicate ReadsReady(k: nat)
      requires k < |schedule| && forall n :: n in schedule ==> n in g.node
    {
      assert schedule[k] in schedule;
      forall v :: v in g.node[schedule[k]].inputs && v in necessary ==> v in Written(k)
    }

    ghost predicate AllKnown() {
      forall v: ValueId :: nbytes(v) >= 0
    }
  }

  /** Reading more values changes only what is charged for them. */
  lemma ReadOne(p: Problem, bound: nat, written: seq<ValueId>, read: seq<ValueId>, v: ValueId)
    requires v < bound && (v in p.necessary ==> v in written) && multiset(read)[v] < |p.g.Users(v)| && p.nbytes(v) >= -1
    ensures SumTo(bound, p.Charge(written, read + [v])) == SumTo(bound, p.Charge(written, read))
      - if v in p.necessary && multiset(read)[v] + 1 == p.Uses(v) then p.nbytes(v) else 0
    ensures !p.Freed(read, v)
  {
    var f, g := p.Charge(written, read), p.Charge(written, read + [v]);
    forall w: ValueId | w < bound && w != v ensures f(w) == g(w) {
      OtherRead(p, read, v, w);
    }
    assert multiset(read + [v])[v] == multiset(read)[v] + 1;
    assert (read + [v])[|read|] == v;
    SumChange(bound, f, g, v);
  }

  lemma OtherRead(p: Problem, read: seq<ValueId>, v: ValueId, w: ValueId)
    requires w != v
    ensures p.Freed(read + [v], w) == p.Freed(read, w)
  {
    assert multiset(read + [v])[w] == multiset(read)[w];
    assert w in read + [v] <==> w in read;
  }

  lemma WriteOne(p: Problem, bound: nat, written: seq<ValueId>, read: seq<ValueId>, v: ValueId)
    requires v < bound && v !in written && (v in p.necessary ==> v !in read)
    ensures SumTo(bound, p.Charge(written + [v], read)) == SumTo(bound, p.Charge(written, read))
      + if p.nbytes(v) >= 0 then p.nbytes(v) else 0
  {
    var f, g := p.Charge(written, read), p.Charge(written + [v], read);
    assert forall w: ValueId :: w != v ==> (w in written + [v] <==> w in written);
    SumChange(bound, f, g, v);
  }

  // ---- no value is read more often than it has users ----

  /** How many entries of `us` are in `nodes`. */
  function CountIn(us: seq<NodeId>, nodes: set<NodeId>): nat {
    if us == [] then 0 else CountIn(us[1..], nodes) + if us[0] in nodes then 1 else 0
  }

  lemma {:induction false} CountInMore(us: seq<NodeId>, nodes: set<NodeId>, n: NodeId)
    requires n !in nodes
    ensures CountIn(us, nodes + {n}) == CountIn(us, nodes) + multiset(us)[n]
  {
    if us != [] {
      assert us == [us[0]] + us[1..];
      CountInMore(us[1..], nodes, n);
    }
  }

  lemma {:induction false} CountInAll(us: seq<NodeId>, nodes: set<NodeId>)
    ensures CountIn(us, nodes) <= |us|
  {
    if us != [] { CountInAll(us[1..], nodes); }
  }

  lemma FitsReads(p: Problem, bound: nat)
    requires p.Fits(bound)
    ensures p.g.DefUse() && Distinct(p.schedule) && forall n :: n in p.schedule ==> n in p.g.node
  {
    hide p.g.DefUse;
  }

  lemma UserCounted(g: Snapshot, n: NodeId, v: ValueId)
    requires g.DefUse() && n in g.node
    ensures multiset(g.Users(v))[n] == multiset(g.node[n].inputs)[v]
  {
    assert multiset(g.Users(v))[n] == g.Reads(n, v);
  }

  lemma ScheduledNext(schedule: seq<NodeId>, k: nat)
    requires Distinct(schedule) && k < |schedule|
    ensures schedule[k] in schedule && schedule[k] !in SetOf(schedule[..k])
    ensures SetOf(schedule[..k + 1]) == SetOf(schedule[..k]) + {schedule[k]}
  {
    assert schedule[..k + 1] == schedule[..k] + [schedule[k]];
  }

  lemma {:induction false} ReadsCounted(p: Problem, bound: nat, k: nat, v: ValueId)
    requires p.Fits(bound) && k <= |p.schedule|
    ensures multiset(p.Read(k))[v] == CountIn(p.g.Users(v), SetOf(p.schedule[..k]))
  {
    hide p.Fits, p.g.Users, SetOf, CountIn;
    FitsReads(p, bound);
    if k == 0 {
      assert p.schedule[..0] == [];
      NoneCounted(p.g.Users(v));
    } else {
      ReadsCounted(p, bound, k - 1, v);
      var n := p.schedule[k - 1];
      ScheduledNext(p.schedule, k - 1);
      CountInMore(p.g.Users(v), SetOf(p.schedule[..k - 1]), n);
      UserCounted(p.g, n, v);
      assert p.Read(k) == p.Read(k - 1) + p.g.node[n].inputs;
    }
  }

  lemma {:induction false} NoneCounted(us: seq<NodeId>)
    ensures CountIn(us, SetOf([])) == 0
  {
    if us != [] { NoneCounted(us[1..]); }
  }

  lemma OneMoreRead(read: seq<ValueId>, inputs: seq<ValueId>, i: nat)
    requires i < |inputs|
    ensures multiset(read + inputs)[inputs[i]] >= multiset(read + inputs[..i])[inputs[i]] + 1
  {
    assert inputs == inputs[..i] + ([inputs[i]] + inputs[i + 1..]);
    assert multiset(inputs) == multiset(inputs[..i]) + multiset([inputs[i]] + inputs[i + 1..]);
  }

  /** While node `k` reads its inputs, no value is read more often than it has users. */
  lemma ReadsBounded(p: Problem, bound: nat, k: nat, i: nat)
    requires p.Fits(bound) && k < |p.schedule| && p.schedule[k] in p.g.node && i < |p.g.node[p.schedule[k]].inputs|
    ensures var inputs := p.g.node[p.schedule[k]].inputs;
      multiset(p.Read(k) + inputs[..i])[inputs[i]] < |p.g.Users(inputs[i])|
  {
    hide CountIn, SetOf, p.g.Users;
    var inputs := p.g.node[p.schedule[k]].inputs;
    var v := inputs[i];
    ReadsCounted(p, bound, k + 1, v);
    CountInAll(p.g.Users(v), SetOf(p.schedule[..k + 1]));
    FitsNodes(p, bound);
    hide p.Fits;
    assert p.Read(k + 1) == p.Read(k) + inputs;
    OneMoreRead(p.Read(k), inputs, i);
  }

  // ---- the simulation ----

  datatype Usage = Usage(param: int, peak: int, all: int, numValues: nat, numUnknowns: nat)

  ghost function Sized(p: Problem, written: seq<ValueId>): ValueId -> int {
    (v: ValueId) => if v in written && p.nbytes(v) >= 0 then p.nbytes(v) else 0
  }

  function Unknowns(p: Problem, written: seq<ValueId>): nat {
    if written == [] then 0 else Unknowns(p, written[..|written| - 1]) + if p.nbytes(written[|written| - 1]) < 0 then
      1 else 0
  }

  /** The simulated memory is what the values in use are charged; with all sizes known, it is at
      most the peak, and that at most what was ever allocated. */
  ghost predicate Simulated(p: Problem, bound: nat, mem: int, usage: Usage, written: seq<ValueId>, read: seq<ValueId>) {
    && mem == SumTo(bound, p.Charge(written, read))
    && usage.all == SumTo(bound, Sized(p, written)) && usage.numValues == |written|
    && usage.numUnknowns == Unknowns(p, written)
    && (p.AllKnown() ==> 0 <= mem <= usage.peak <= usage.all)
  }

  /** With all sizes known the charge is between nothing and everything written. */
  lemma ChargeWithin(p: Problem, bound: nat, written: seq<ValueId>, read: seq<ValueId>)
    requires p.AllKnown()
    ensures 0 <= SumTo(bound, p.Charge(written, read)) <= SumTo(bound, Sized(p, written))
  {
    var zero := (v: ValueId) => 0;
    SumMonotone(bound, zero, p.Charge(written, read));
    SumMonotone(bound, p.Charge(written, read), Sized(p, written));
    SumZero(bound);
  }

  lemma {:induction false} SumZero(bound: nat)
    ensures SumTo(bound, (v: ValueId) => 0) == 0
  {
    if bound > 0 {
      SumZero(bound - 1);
      SumSame(bound - 1, (v: ValueId) => 0, (v: ValueId) => 0);
    }
  }

  lemma SizedMore(p: Problem, bound: nat, written: seq<ValueId>, v: ValueId)
    requires v < bound && v !in written
    ensures SumTo(bound, Sized(p, written + [v])) == SumTo(bound, Sized(p, written)) + if p.nbytes(v) >= 0 then
      p.nbytes(v) else 0
    ensures Unknowns(p, written + [v]) == Unknowns(p, written) + if p.nbytes(v) < 0 then 1 else 0
  {
    assert (written + [v])[..|written|] == written;
    assert forall w: ValueId :: w != v ==> (w in written + [v] <==> w in written);
    SumChange(bound, Sized(p, written), Sized(p, written + [v]), v);
  }

  /** The lambda `alloc`. */
  method Alloc(p: Problem, ghost bound: nat, v: ValueId, mem: int, usage: Usage, ghost written: seq<ValueId>,
               ghost read: seq<ValueId>)
    returns (mem': int, usage': Usage)
    requires Simulated(p, bound, mem, usage, written, read)
    requires v < bound && v !in written && (v in p.necessary ==> v !in read)
    ensures Simulated(p, bound, mem', usage', written + [v], read) && usage'.param == usage.param
    ensures usage'.peak == if p.nbytes(v) >= 0 && usage.peak < mem' then mem' else usage.peak
  {
    WriteOne(p, bound, written, read, v);
    SizedMore(p, bound, written, v);
    hide p.Charge, Sized, Unknowns, SumTo;
    var increase := p.nbytes(v);
    mem', usage' := mem, usage.(numValues := usage.numValues + 1);
    if increase < 0 {
      usage' := usage'.(numUnknowns := usage'.numUnknowns + 1);
    } else {
      mem' := mem + increase;
      usage' := usage'.(all := usage'.all + increase, peak := if usage'.peak < mem' then mem' else usage'.peak);
    }
    if p.AllKnown() { ChargeWithin(p, bound, written + [v], read); }
  }

  /** Remaining users of the necessary values. */
  ghost predicate Counts(p: Problem, numUsers: map<ValueId, int>, read: seq<ValueId>) {
    && (forall v :: v in numUsers <==> v in p.necessary)
    && (forall v :: v in numUsers ==> numUsers[v] == p.Uses(v) - multiset(read)[v])
  }

  lemma ReadMore(p: Problem, bound: nat, mem: int, usage: Usage, written: seq<ValueId>, read: seq<ValueId>, v: ValueId)
    requires Simulated(p, bound, mem, usage, written, read)
    requires v < bound && (v in p.necessary ==> v in written) && multiset(read)[v] < |p.g.Users(v)| && p.nbytes(v) >= -1
    ensures var mem' := mem - if v in p.necessary && multiset(read)[v] + 1 == p.Uses(v) then p.nbytes(v) else 0;
      Simulated(p, bound, mem', usage, written, read + [v])
  {
    hide Sized, Unknowns;
    ReadOne(p, bound, written, read, v);
    hide p.Charge, SumTo;
    if p.AllKnown() { ChargeWithin(p, bound, written, read + [v]); }
  }

  /** A value that is not read yet can be allocated. */
  lemma NotReadYet(p: Problem, bound: nat, k: nat, written: seq<ValueId>, v: ValueId)
    requires p.Fits(bound) && k <= |p.schedule| && v !in p.Written(k) && v in p.necessary
    ensures v !in p.Read(k)
  {
    if k > 0 {
      assert p.schedule[k - 1] in p.schedule;
      assert v !in p.Written(k - 1);
      NotReadYet(p, bound, k - 1, written, v);
      assert p.ReadsReady(k - 1);
    }
  }

  // ---- the levels of memory along the schedule ----

  /** Memory once the first `i` necessary values have been looked at. */
  ghost function InitialLevel(p: Problem, bound: nat, i: nat): int
    requires i <= |p.necessary|
  {
    SumTo(bound, p.Charge(p.Initial(i), []))
  }

  /** Memory once `j` outputs of node `k` are allocated. */
  ghost function AllocLevel(p: Problem, bound: nat, k: nat, j: nat): int
    requires k < |p.schedule| && forall n :: n in p.schedule ==> n in p.g.node
    requires j <= |p.Outputs(k)|
  {
    SumTo(bound, p.Charge(p.Written(k) + p.Outputs(k)[..j], p.Read(k)))
  }

  /** Memory once all outputs of node `k` are allocated and `i` of its inputs counted. */
  ghost function FreeLevel(p: Problem, bound: nat, k: nat, i: nat): int
    requires k < |p.schedule| && forall n :: n in p.schedule ==> n in p.g.node
    requires i <= |p.Inputs(k)|
  {
    SumTo(bound, p.Charge(p.Written(k + 1), p.Read(k) + p.Inputs(k)[..i]))
  }

  /** Memory in use after `k` nodes of the schedule. */
  ghost function InUse(p: Problem, bound: nat, k: nat): int
    requires k <= |p.schedule| && forall n :: n in p.schedule ==> n in p.g.node
  {
    SumTo(bound, p.Charge(p.Written(k), p.Read(k)))
  }

  ghost predicate InitialBelow(p: Problem, bound: nat, peak: int, i: nat)
    requires i <= |p.necessary|
  {
    forall m :: 0 <= m <= i ==> InitialLevel(p, bound, m) <= peak
  }

  ghost predicate NodeBelow(p: Problem, bound: nat, peak: int, k: nat)
    requires k < |p.schedule| && forall n :: n in p.schedule ==> n in p.g.node
  {
    && (forall j :: 0 <= j <= |p.Outputs(k)| ==> AllocLevel(p, bound, k, j) <= peak)
    && (forall i :: 0 <= i <= |p.Inputs(k)| ==> FreeLevel(p, bound, k, i) <= peak)
  }

  ghost predicate IsLevel(p: Problem, bound: nat, level: int)
    requires forall n :: n in p.schedule ==> n in p.g.node
  {
    || (exists i :: 0 <= i <= |p.necessary| && InitialLevel(p, bound, i) == level)
    || (exists k, j :: 0 <= k < |p.schedule| && 0 <= j <= |p.Outputs(k)| && AllocLevel(p, bound, k, j) == level)
  }

  /** No level up to node `k` exceeds the peak, and the peak is one of the levels. */
  ghost predicate Greatest(p: Problem, bound: nat, peak: int, k: nat)
    requires k <= |p.schedule| && forall n :: n in p.schedule ==> n in p.g.node
  {
    && InitialBelow(p, bound, peak, |p.necessary|) && IsLevel(p, bound, peak)
    && (forall l :: 0 <= l < k ==> NodeBelow(p, bound, peak, l))
  }

  lemma GreatestMore(p: Problem, bound: nat, peak: int, peak': int, k: nat)
    requires k < |p.schedule| && (forall n :: n in p.schedule ==> n in p.g.node)
    requires Greatest(p, bound, peak, k) && peak <= peak' && NodeBelow(p, bound, peak', k)
    requires peak' == peak || IsLevel(p, bound, peak')
    ensures Greatest(p, bound, peak', k + 1)
  {
    hide SumTo, InitialLevel, AllocLevel, FreeLevel, IsLevel;
    forall l | 0 <= l < k + 1 ensures NodeBelow(p, bound, peak', l) {
      if l < k { assert NodeBelow(p, bound, peak, l); }
    }
  }

  lemma InitialMore(p: Problem, bound: nat, peak: int, peak': int, i: nat)
    requires i < |p.necessary| && (forall n :: n in p.schedule ==> n in p.g.node)
    requires InitialBelow(p, bound, peak, i) && IsLevel(p, bound, peak) && peak <= peak'
    requires InitialLevel(p, bound, i + 1) <= peak' && (peak' == peak || peak' == InitialLevel(p, bound, i + 1))
    ensures InitialBelow(p, bound, peak', i + 1) && IsLevel(p, bound, peak')
  {
    hide InitialLevel, AllocLevel;
  }

  lemma InitialNone(p: Problem, bound: nat)
    requires (forall n :: n in p.schedule ==> n in p.g.node) && InitialLevel(p, bound, 0) == 0
    ensures InitialBelow(p, bound, 0, 0) && IsLevel(p, bound, 0)
  {
    hide InitialLevel, AllocLevel;
  }

  /** The inputs and parameters, before any node runs. */
  method Begin(p: Problem, ghost bound: nat) returns (mem: int, usage: Usage, numUsers: map<ValueId, int>)
    requires p.Fits(bound)
    ensures Simulated(p, bound, mem, usage, p.Written(0), []) && Counts(p, numUsers, [])
    ensures usage.param == SumTo(bound, ParamSizes(p, p.necessary))
    ensures p.AllKnown() ==> (forall n :: n in p.schedule ==> n in p.g.node) && Greatest(p, bound, usage.peak, 0)
  {
    hide SumTo, ParamSizes, p.Charge, Sized, Simulated, p.Fits, AllocLevel, FreeLevel, IsLevel, InitialBelow, p.Uses;
    mem, usage, numUsers := 0, Usage(0, 0, 0, 0, 0), map[];
    NothingYet(p, bound);
    FitsNodes(p, bound);
    var i := 0;
    SimulatedMem(p, bound, mem, usage, p.Initial(0), []);
    InitialNone(p, bound);
    NoParams(p, bound);
    while i < |p.necessary|
      invariant 0 <= i <= |p.necessary| && Simulated(p, bound, mem, usage, p.Initial(i), [])
      invariant usage.param == SumTo(bound, ParamSizes(p, p.necessary[..i]))
      invariant p.AllKnown() ==> InitialBelow(p, bound, usage.peak, i) && IsLevel(p, bound, usage.peak)
      invariant forall v :: v in numUsers <==> v in p.necessary[..i]
      invariant forall v :: v in numUsers ==> numUsers[v] == p.Uses(v)
    {
      var v := p.necessary[i];
      assert p.necessary[..i + 1] == p.necessary[..i] + [v];
      ghost var peak := usage.peak;
      UsesAre(p, v);
      ParamMore(p, bound, i);
      var nu := |p.g.Users(v)|;
      if v in p.inputs {
        var bytes := p.nbytes(v);
        if v in p.parameters {
          ParamApart(p, bound, mem, usage, p.Initial(i), [], usage.param + if bytes >= 0 then bytes else 0);
          usage := usage.(param := usage.param + if bytes >= 0 then bytes else 0);
          nu := nu + 1;
        }
        InitialDistinct(p, bound, i);
        mem, usage := Alloc(p, bound, v, mem, usage, p.Initial(i), []);
      } else {
        assert p.Initial(i + 1) == p.Initial(i);
      }
      SimulatedMem(p, bound, mem, usage, p.Initial(i + 1), []);
      assert InitialLevel(p, bound, i + 1) == mem;
      if p.AllKnown() { InitialMore(p, bound, peak, usage.peak, i); }
      numUsers := numUsers[v := nu];
      i := i + 1;
    }
    assert p.necessary[..i] == p.necessary;
  }

  lemma UsesAre(p: Problem, v: ValueId)
    ensures p.Uses(v) == |p.g.Users(v)| + if v in p.inputs && v in p.parameters then 1 else 0
  {
  }

  lemma SimulatedMem(p: Problem, bound: nat, mem: int, usage: Usage, written: seq<ValueId>, read: seq<ValueId>)
    requires Simulated(p, bound, mem, usage, written, read)
    ensures mem == SumTo(bound, p.Charge(written, read)) && (p.AllKnown() ==> 0 <= mem <= usage.peak <= usage.all)
  {
    hide SumTo, p.Charge, Sized, Unknowns;
  }

  lemma ParamApart(p: Problem, bound: nat, mem: int, usage: Usage, written: seq<ValueId>, read: seq<ValueId>,
                   param: int)
    requires Simulated(p, bound, mem, usage, written, read)
    ensures Simulated(p, bound, mem, usage.(param := param), written, read)
  {
    hide SumTo, p.Charge, Sized, Unknowns;
  }

  /** The known sizes of the inputs with an initializer among `vs`. */
  ghost function ParamSizes(p: Problem, vs: seq<ValueId>): ValueId -> int {
    (v: ValueId) => if v in vs && v in p.inputs && v in p.parameters && p.nbytes(v) >= 0 then p.nbytes(v) else 0
  }

  lemma NoParams(p: Problem, bound: nat)
    ensures SumTo(bound, ParamSizes(p, p.necessary[..0])) == 0
  {
    SumZero(bound);
    SumSame(bound, (v: ValueId) => 0, ParamSizes(p, p.necessary[..0]));
  }

  lemma ParamMore(p: Problem, bound: nat, i: nat)
    requires p.Fits(bound) && i < |p.necessary|
    ensures
      var v := p.necessary[i];
      SumTo(bound, ParamSizes(p, p.necessary[..i + 1])) == SumTo(bound, ParamSizes(p, p.necessary[..i]))
        + if v in p.inputs && v in p.parameters && p.nbytes(v) >= 0 then p.nbytes(v) else 0
  {
    var v := p.necessary[i];
    assert v in p.necessary;
    assert p.necessary[..i + 1] == p.necessary[..i] + [v];
    SumChange(bound, ParamSizes(p, p.necessary[..i]), ParamSizes(p, p.necessary[..i + 1]), v);
  }

  /** What is charged for the parameters after `k` nodes of the schedule. */
  ghost function ParamsInUse(p: Problem, bound: nat, k: nat): int
    requires k <= |p.schedule| && forall n :: n in p.schedule ==> n in p.g.node
  {
    SumTo(bound, (v: ValueId) =>
      if v in p.necessary && v in p.parameters then p.Charge(p.Written(k), p.Read(k))(v) else 0)
  }

  lemma {:induction false} InitialHolds(p: Problem, i: nat, v: ValueId)
    requires i <= |p.necessary| && v in p.necessary[..i] && v in p.inputs
    ensures v in p.Initial(i)
  {
    assert p.necessary[..i] == p.necessary[..i - 1] + [p.necessary[i - 1]];
    if v in p.necessary[..i - 1] { InitialHolds(p, i - 1, v); }
  }

  /** A parameter is in use from the beginning, and after every node. */
  lemma ParamCharged(p: Problem, bound: nat, k: nat, v: ValueId)
    requires p.Fits(bound) && k <= |p.schedule| && v in p.necessary && v in p.parameters
    ensures p.Charge(p.Written(k), p.Read(k))(v) == ParamSizes(p, p.necessary)(v)
  {
    FreedForGood(p, bound, k, k, v);
    assert p.necessary[..|p.necessary|] == p.necessary;
    InitialHolds(p, |p.necessary|, v);
    WrittenPrefix(p, 0, k);
    assert v in p.Written(0);
    hide p.Freed, p.Written, p.Read;
  }

  /** Parameters are never freed: after each node all their bytes are still in use. */
  lemma ParamsStay(p: Problem, bound: nat, k: nat)
    requires p.Fits(bound) && k <= |p.schedule|
    ensures ParamsInUse(p, bound, k) == SumTo(bound, ParamSizes(p, p.necessary)) <= InUse(p, bound, k)
  {
    var charge := p.Charge(p.Written(k), p.Read(k));
    var inUse := (v: ValueId) => if v in p.necessary && v in p.parameters then charge(v) else 0;
    forall v: ValueId ensures inUse(v) == ParamSizes(p, p.necessary)(v) <= charge(v) {
      if v in p.necessary && v in p.parameters { ParamCharged(p, bound, k, v); }
    }
    hide p.Charge, ParamSizes, p.Fits;
    SumSame(bound, inUse, ParamSizes(p, p.necessary));
    SumMonotone(bound, inUse, charge);
  }

  lemma NothingYet(p: Problem, bound: nat)
    ensures Simulated(p, bound, 0, Usage(0, 0, 0, 0, 0), p.Initial(0), [])
  {
    SumZero(bound);
    var zero, charge, sized := (v: ValueId) => 0, p.Charge([], []), Sized(p, []);
    forall v: ValueId | v < bound ensures zero(v) == charge(v) == sized(v) {
      assert v !in [];
      assert !p.Freed([], v);
    }
    SumSame(bound, zero, charge);
    SumSame(bound, zero, sized);
  }

  lemma {:induction false} InitialIn(p: Problem, i: nat, v: ValueId)
    requires i <= |p.necessary|
    ensures v in p.Initial(i) ==> v in p.necessary[..i]
  {
    if i > 0 {
      assert p.necessary[..i] == p.necessary[..i - 1] + [p.necessary[i - 1]];
      InitialIn(p, i - 1, v);
    }
  }

  lemma InitialDistinct(p: Problem, bound: nat, i: nat)
    requires p.Fits(bound) && i < |p.necessary|
    ensures p.necessary[i] !in p.Initial(i) && p.necessary[i] < bound
  {
    InitialIn(p, i, p.necessary[i]);
    assert p.necessary[i] in p.necessary;
  }

  /** Allocates the outputs of node `k`. */
  method AllocOutputs(p: Problem, ghost bound: nat, k: nat, mem0: int, usage0: Usage) returns (mem: int, usage: Usage)
    requires p.Fits(bound) && k < |p.schedule| && p.schedule[k] in p.g.node
    requires Simulated(p, bound, mem0, usage0, p.Written(k), p.Read(k))
    ensures Simulated(p, bound, mem, usage, p.Written(k + 1), p.Read(k)) && usage.param == usage0.param
    ensures usage0.peak <= usage.peak
    ensures p.AllKnown() ==> forall j :: 0 <= j <= |p.Outputs(k)| ==> AllocLevel(p, bound, k, j) <= usage.peak
    ensures p.AllKnown() ==> usage.peak == usage0.peak || IsLevel(p, bound, usage.peak)
  {
    hide SumTo, p.Charge, Sized, Simulated, p.Fits;
    FitsNodes(p, bound);
    var outputs := p.g.node[p.schedule[k]].outputs;
    mem, usage := mem0, usage0;
    assert p.Written(k) + outputs[..0] == p.Written(k);
    SimulatedMem(p, bound, mem, usage, p.Written(k), p.Read(k));
    var j := 0;
    while j < |outputs|
      invariant 0 <= j <= |outputs| == |p.Outputs(k)| && usage.param == usage0.param && usage0.peak <= usage.peak
      invariant Simulated(p, bound, mem, usage, p.Written(k) + outputs[..j], p.Read(k))
      invariant p.AllKnown() ==> forall m :: 0 <= m <= j ==> AllocLevel(p, bound, k, m) <= usage.peak
      invariant p.AllKnown() ==> usage.peak == usage0.peak || IsLevel(p, bound, usage.peak)
    {
      OutputNew(p, bound, k, j);
      assert p.Written(k) + outputs[..j + 1] == (p.Written(k) + outputs[..j]) + [outputs[j]];
      mem, usage := Alloc(p, bound, outputs[j], mem, usage, p.Written(k) + outputs[..j], p.Read(k));
      j := j + 1;
      SimulatedMem(p, bound, mem, usage, p.Written(k) + outputs[..j], p.Read(k));
      assert AllocLevel(p, bound, k, j) == mem;
    }
    assert outputs[..j] == outputs;
    assert p.Written(k + 1) == p.Written(k) + outputs;
  }

  lemma OutputNew(p: Problem, bound: nat, k: nat, j: nat)
    requires p.Fits(bound) && k < |p.schedule| && p.schedule[k] in p.g.node && j < |p.g.node[p.schedule[k]].outputs|
    ensures var outputs := p.g.node[p.schedule[k]].outputs;
      outputs[j] < bound && outputs[j] !in p.Written(k) + outputs[..j]
        && (outputs[j] in p.necessary ==> outputs[j] !in p.Read(k))
  {
    var outputs := p.g.node[p.schedule[k]].outputs;
    assert p.Written(k + 1) == p.Written(k) + outputs;
    WrittenPrefix(p, k + 1, |p.schedule|);
    var all := p.Written(|p.schedule|);
    var at := |p.Written(k)| + j;
    assert all[at] == outputs[j] && outputs[j] in all;
    assert forall i :: 0 <= i < at ==> all[i] == (p.Written(k) + outputs[..j])[i];
    if outputs[j] in p.necessary { NotReadYet(p, bound, k, p.Written(k), outputs[j]); }
  }

  lemma {:induction false} WrittenPrefix(p: Problem, k: nat, m: nat)
    requires k <= m <= |p.schedule| && forall n :: n in p.schedule ==> n in p.g.node
    ensures p.Written(k) <= p.Written(m)
  {
    if k < m { WrittenPrefix(p, k, m - 1); }
  }

  /** Counts the inputs of node `k` and frees what has no users left. */
  method FreeInputs(p: Problem, ghost bound: nat, k: nat, mem0: int, ghost usage: Usage, numUsers0: map<ValueId, int>)
    returns (mem: int, numUsers: map<ValueId, int>)
    requires p.Fits(bound) && k < |p.schedule| && p.schedule[k] in p.g.node
    requires Simulated(p, bound, mem0, usage, p.Written(k + 1), p.Read(k)) && Counts(p, numUsers0, p.Read(k))
    ensures Simulated(p, bound, mem, usage, p.Written(k + 1), p.Read(k + 1)) && Counts(p, numUsers, p.Read(k + 1))
    ensures p.AllKnown() ==> forall i :: 0 <= i <= |p.Inputs(k)| ==> FreeLevel(p, bound, k, i) <= usage.peak
  {
    hide *;
    var inputs := p.g.node[p.schedule[k]].inputs;
    mem, numUsers := mem0, numUsers0;
    FreeingStarts(p, bound, k, mem, usage, numUsers);
    var i := 0;
    while i < |inputs|
      invariant 0 <= i <= |inputs| && Freeing(p, bound, k, i, mem, usage, numUsers)
    {
      var v := inputs[i];
      FreeingNext(p, bound, k, i, mem, usage, numUsers);
      if v in numUsers {
        numUsers := numUsers[v := numUsers[v] - 1];
        if numUsers[v] == 0 { mem := mem - p.nbytes(v); }
      }
      i := i + 1;
    }
    FreeingEnds(p, bound, k, mem, usage, numUsers);
  }

  /** The first `i` inputs of the node have been counted down, and freed where nobody reads them any more. */
  ghost predicate Freeing(p: Problem, bound: nat, k: nat, i: nat, mem: int, usage: Usage, numUsers: map<ValueId, int>) {
    && k < |p.schedule| && (forall n :: n in p.schedule ==> n in p.g.node) && i <= |p.Inputs(k)|
    && Counts(p, numUsers, p.Read(k) + p.Inputs(k)[..i])
    && Simulated(p, bound, mem, usage, p.Written(k + 1), p.Read(k) + p.Inputs(k)[..i])
    && (p.AllKnown() ==> forall m :: 0 <= m <= i ==> FreeLevel(p, bound, k, m) <= usage.peak)
  }

  lemma FreeingStarts(p: Problem, bound: nat, k: nat, mem: int, usage: Usage, numUsers: map<ValueId, int>)
    requires p.Fits(bound) && k < |p.schedule| && p.schedule[k] in p.g.node
    requires Simulated(p, bound, mem, usage, p.Written(k + 1), p.Read(k)) && Counts(p, numUsers, p.Read(k))
    ensures Freeing(p, bound, k, 0, mem, usage, numUsers)
  {
    FitsNodes(p, bound);
    hide SumTo, p.Charge, Simulated, Counts, p.Fits, p.AllKnown, p.Read, p.Written;
    assert p.Read(k) + p.Inputs(k)[..0] == p.Read(k);
    SimulatedMem(p, bound, mem, usage, p.Written(k + 1), p.Read(k));
  }

  lemma FreeingNext(p: Problem, bound: nat, k: nat, i: nat, mem: int, usage: Usage, numUsers: map<ValueId, int>)
    requires p.Fits(bound) && k < |p.schedule| && p.schedule[k] in p.g.node && i < |p.g.node[p.schedule[k]].inputs|
    requires Freeing(p, bound, k, i, mem, usage, numUsers)
    ensures
      var v := p.g.node[p.schedule[k]].inputs[i];
      Freeing(p, bound, k, i + 1, if v in numUsers && numUsers[v] - 1 == 0 then mem - p.nbytes(v) else mem, usage,
              if v in numUsers then numUsers[v := numUsers[v] - 1] else numUsers)
  {
    hide SumTo, p.Charge, Simulated, Counts, p.Fits, p.AllKnown, p.Read, p.Written, p.Uses, p.g.Users;
    var v, read := p.Inputs(k)[i], p.Read(k) + p.Inputs(k)[..i];
    assert p.Read(k) + p.Inputs(k)[..i + 1] == read + [v];
    ReadsBounded(p, bound, k, i);
    ReadableInput(p, bound, k, i);
    ReadMore(p, bound, mem, usage, p.Written(k + 1), read, v);
    CountDown(p, numUsers, read, v);
    var mem' := if v in numUsers && numUsers[v] - 1 == 0 then mem - p.nbytes(v) else mem;
    SimulatedMem(p, bound, mem', usage, p.Written(k + 1), read + [v]);
  }

  lemma FreeingEnds(p: Problem, bound: nat, k: nat, mem: int, usage: Usage, numUsers: map<ValueId, int>)
    requires k < |p.schedule| && p.schedule[k] in p.g.node
    requires Freeing(p, bound, k, |p.g.node[p.schedule[k]].inputs|, mem, usage, numUsers)
    ensures Simulated(p, bound, mem, usage, p.Written(k + 1), p.Read(k + 1)) && Counts(p, numUsers, p.Read(k + 1))
    ensures p.AllKnown() ==> forall i :: 0 <= i <= |p.Inputs(k)| ==> FreeLevel(p, bound, k, i) <= usage.peak
  {
    hide SumTo, p.Charge, Simulated, Counts, p.AllKnown, p.Written;
    assert p.Read(k + 1) == p.Read(k) + p.Inputs(k)[..|p.Inputs(k)|];
  }
  lemma FitsNodes(p: Problem, bound: nat)
    requires p.Fits(bound)
    ensures forall n :: n in p.schedule ==> n in p.g.node
    ensures Distinct(p.necessary)
  {
  }

  lemma CountDown(p: Problem, numUsers: map<ValueId, int>, read: seq<ValueId>, v: ValueId)
    requires Counts(p, numUsers, read)
    ensures v in numUsers <==> v in p.necessary
    ensures v in numUsers ==> (numUsers[v] - 1 == 0 <==> multiset(read)[v] + 1 == p.Uses(v))
    ensures Counts(p, if v in numUsers then numUsers[v := numUsers[v] - 1] else numUsers, read + [v])
  {
    assert multiset(read + [v]) == multiset(read) + multiset{v};
  }

  lemma ReadableInput(p: Problem, bound: nat, k: nat, i: nat)
    requires p.Fits(bound) && k < |p.schedule| && p.schedule[k] in p.g.node && i < |p.g.node[p.schedule[k]].inputs|
    ensures var v := p.g.node[p.schedule[k]].inputs[i];
      (v in p.necessary ==> v in p.Written(k + 1)) && v < bound && p.nbytes(v) >= -1
  {
    var v := p.g.node[p.schedule[k]].inputs[i];
    assert v in p.g.node[p.schedule[k]].inputs && p.ReadsReady(k);
    assert p.Written(k + 1) == p.Written(k) + p.g.node[p.schedule[k]].outputs;
  }

  /** SimulateMemoryUsage.  `after` is the simulated memory after every node.  With all sizes known
      the peak is the greatest level of memory at any point. */
  method SimulateMemoryUsage(p: Problem, ghost bound: nat) returns (usage: Usage, ghost after: seq<int>)
    requires p.Fits(bound)
    ensures |after| == |p.schedule| + 1 && forall k :: 0 <= k <= |p.schedule| ==> after[k] == InUse(p, bound, k)
    ensures usage.all == SumTo(bound, Sized(p, p.Written(|p.schedule|)))
    ensures usage.numValues == |p.Written(|p.schedule|)| && usage.numUnknowns == Unknowns(p, p.Written(|p.schedule|))
    // The parameters take `param` bytes, from the beginning to the end.
    ensures usage.param == SumTo(bound, ParamSizes(p, p.necessary))
    ensures forall k :: 0 <= k <= |p.schedule| ==> ParamsInUse(p, bound, k) == usage.param <= after[k]
    ensures p.AllKnown() ==> Greatest(p, bound, usage.peak, |p.schedule|) && 0 <= usage.peak <= usage.all
    ensures p.AllKnown() ==> forall k :: 0 <= k <= |p.schedule| ==> 0 <= after[k] <= usage.peak
  {
    hide SumTo, ParamSizes, ParamsInUse, p.Charge, Sized, Unknowns, Counts, Greatest, IsLevel, AllocLevel, FreeLevel,
      InitialLevel, p.Fits;
    var mem, numUsers;
    FitsNodes(p, bound);
    mem, usage, numUsers := Begin(p, bound);
    after := [mem];
    var k := 0;
    while k < |p.schedule|
      invariant 0 <= k <= |p.schedule| && Simulated(p, bound, mem, usage, p.Written(k), p.Read(k))
      invariant Counts(p, numUsers, p.Read(k))
      invariant usage.param == SumTo(bound, ParamSizes(p, p.necessary))
      invariant |after| == k + 1 && forall i :: 0 <= i <= k ==> after[i] == InUse(p, bound, i)
      invariant p.AllKnown() ==>
        Greatest(p, bound, usage.peak, k) && forall i :: 0 <= i <= k ==> 0 <= after[i] <= usage.peak
    {
      assert p.schedule[k] in p.schedule;
      ghost var peak := usage.peak;
      mem, usage := AllocOutputs(p, bound, k, mem, usage);
      mem, numUsers := FreeInputs(p, bound, k, mem, usage, numUsers);
      if p.AllKnown() { GreatestMore(p, bound, peak, usage.peak, k); }
      after := after + [mem];
      k := k + 1;
    }
    forall i | 0 <= i <= |p.schedule| ensures ParamsInUse(p, bound, i) == usage.param <= after[i] {
      ParamsStay(p, bound, i);
    }
  }

  /** The simulated memory is the size of the values in use exactly as long as no value of unknown
      size has been freed: each leaves one byte behind. */
  lemma ExactUnlessUnknownFreed(p: Problem, bound: nat, written: seq<ValueId>, read: seq<ValueId>)
    requires forall v: ValueId :: p.nbytes(v) >= -1
    ensures var inUse := (v: ValueId) => if p.Freed(read, v) || v !in written
      || p.nbytes(v) < 0 then 0 else p.nbytes(v);
      SumTo(bound, p.Charge(written, read)) == SumTo(bound, inUse) <==>
      forall v: ValueId :: v < bound && p.Freed(read, v) ==> p.nbytes(v) >= 0
  {
    var inUse := (v: ValueId) => if p.Freed(read, v) || v !in written || p.nbytes(v) < 0 then 0 else p.nbytes(v);
    SumAbove(bound, inUse, p.Charge(written, read));
    if v: ValueId :| v < bound && p.Freed(read, v) && p.nbytes(v) < 0 {
      assert inUse(v) != p.Charge(written, read)(v);
    }
  }

  /** Sums of which one dominates the other are equal exactly when the functions are. */
  lemma {:induction false} SumAbove(bound: nat, f: ValueId -> int, g: ValueId -> int)
    requires forall v: ValueId :: v < bound ==> f(v) <= g(v)
    ensures SumTo(bound, f) <= SumTo(bound, g)
    ensures SumTo(bound, f) == SumTo(bound, g) <==> forall v: ValueId :: v < bound ==> f(v) == g(v)
  {
    if bound > 0 { SumAbove(bound - 1, f, g); }
  }

  /** Parameters are never freed; what is freed was allocated, and stays freed. */
  lemma FreedForGood(p: Problem, bound: nat, k: nat, m: nat, v: ValueId)
    requires p.Fits(bound) && k <= m <= |p.schedule|
    ensures v in p.parameters ==> !p.Freed(p.Read(k), v)
    ensures p.Freed(p.Read(k), v) ==> v in p.Written(k) && p.Freed(p.Read(m), v)
  {
    hide CountIn, SetOf;
    ReadsCounted(p, bound, k, v);
    CountInAll(p.g.Users(v), SetOf(p.schedule[..k]));
    ReadsCounted(p, bound, m, v);
    CountInAll(p.g.Users(v), SetOf(p.schedule[..m]));
    ReadPrefix(p, k, m);
    assert p.Read(m) == p.Read(k) + p.Read(m)[|p.Read(k)|..];
    if v in p.necessary && v !in p.Written(k) { NotReadYet(p, bound, k, p.Written(k), v); }
  }

  lemma {:induction false} ReadPrefix(p: Problem, k: nat, m: nat)
    requires k <= m <= |p.schedule| && forall n :: n in p.schedule ==> n in p.g.node
    ensures p.Read(k) <= p.Read(m)
  {
    if k < m { ReadPrefix(p, k, m - 1); }
  }

  /** One node that reads an input of unknown size. */
  function UnknownInput(): Problem {
    Problem(Snapshot(map[0 := Node(Other(0), [0], [1])], map[0 := [0]], map[1 := 0], {}), [0], {0}, {},
            (v: ValueId) => if v == 0 then -1 else 0, [0])
  }

  lemma UnknownReads(p: Problem)
    requires p == UnknownInput()
    ensures p.Read(0) == [] && p.Read(1) == [0] && p.Written(0) == [0] && p.Written(1) == [0, 1]
  {
    assert p.schedule[0] in p.schedule;
    assert p.Initial(1) == p.Initial(0) + [p.necessary[0]];
    assert p.Read(1) == p.Read(0) + p.g.node[p.schedule[0]].inputs;
    assert p.Written(1) == p.Written(0) + p.g.node[p.schedule[0]].outputs;
  }

  lemma UnknownDefUse(p: Problem)
    requires p == UnknownInput()
    ensures p.g.DefUse()
  {
    forall n: NodeId, v: ValueId ensures multiset(p.g.Users(v))[n] == p.g.Reads(n, v) {
      if n == 0 && v == 0 { assert p.g.node[0].inputs == [0]; }
    }
  }

  lemma UnknownFits(p: Problem)
    requires p == UnknownInput()
    ensures p.Fits(2)
  {
    hide p.g.DefUse, p.Read, p.Written, p.Initial, p.Charge;
    UnknownReads(p);
    UnknownDefUse(p);
    assert |p.schedule| == 1 && p.schedule[0] in p.schedule;
    assert p.ReadsReady(0);
  }

  lemma UnknownCharge(p: Problem)
    requires p == UnknownInput()
    ensures p.Charge([0, 1], [0])(0) == 1 && p.Charge([0, 1], [0])(1) == 0
  {
    assert multiset([0])[0] == 1 && p.g.Users(0) == [0];
    assert 1 !in [0];
  }

  /** After it has run nothing of a known size is in use, and one byte is left. */
  lemma UnknownLeavesAByte()
    ensures UnknownInput().Fits(2) && InUse(UnknownInput(), 2, 1) == 1
  {
    hide UnknownInput;
    var p := UnknownInput();
    UnknownFits(p);
    UnknownReads(p);
    UnknownCharge(p);
    hide p.Fits, p.Charge, p.Read, p.Written;
    var charge := p.Charge([0, 1], [0]);
    assert SumTo(2, charge) == SumTo(0, charge) + charge(0) + charge(1);
  }
}
