/** `DelaySimpleNodes` of compiler/scheduler.cc: a pass over a finished schedule that moves
    cheap one-input one-output nodes to just before their first reader. */
module Delay {
  import opened Ir

  /** A schedule: distinct nodes, each after the producers of everything it reads. */
  ghost predicate Schedule(g: Snapshot, order: seq<NodeId>) {
    && Distinct(order)
    && (forall j :: 0 <= j < |order| ==> order[j] in g.node)
    && (forall j, v :: 0 <= j < |order| && v in g.node[order[j]].inputs && v in g.producer ==>
          g.producer[v] in order[..j])
  }

  function SumBytes(nbytes: ValueId -> int, values: seq<ValueId>): int {
    if values == [] then 0 else SumBytes(nbytes, values[..|values| - 1]) + nbytes(values[|values| - 1])
  }

  /** A reader of `v` accounts for its share of the bytes among all readers. */
  function Share(g: Snapshot, nbytes: ValueId -> int, v: ValueId): (s: int)
    ensures nbytes(v) >= 0 ==> s >= 0
  {
    if g.Users(v) == [] then 0 else nbytes(v) / |g.Users(v)|
  }

  function SumShares(g: Snapshot, nbytes: ValueId -> int, values: seq<ValueId>): int {
    if values == [] then 0
    else SumShares(g, nbytes, values[..|values| - 1]) + Share(g, nbytes, values[|values| - 1])
  }

  /** Added up over all uses of `v`, the shares make up its bytes, but for what is lost in rounding. */
  lemma SharesAddUp(g: Snapshot, nbytes: ValueId -> int, v: ValueId, uses: seq<ValueId>)
    requires g.Users(v) != [] && nbytes(v) >= 0
    requires |uses| == |g.Users(v)| && forall u :: u in uses ==> u == v
    ensures nbytes(v) - |g.Users(v)| < SumShares(g, nbytes, uses) <= nbytes(v)
  {
    hide SumShares;
    SameShares(g, nbytes, v, uses);
    var n := |g.Users(v)|;
    assert nbytes(v) == n * (nbytes(v) / n) + nbytes(v) % n;
  }

  lemma OneMoreTime(n: nat, s: int)
    ensures n * s + s == (n + 1) * s
  {
  }

  lemma {:induction false} SameShares(g: Snapshot, nbytes: ValueId -> int, v: ValueId, uses: seq<ValueId>)
    requires forall u :: u in uses ==> u == v
    ensures SumShares(g, nbytes, uses) == |uses| * Share(g, nbytes, v)
  {
    hide Share;
    if uses != [] {
      var rest := uses[..|uses| - 1];
      assert uses[|uses| - 1] in uses && forall u :: u in rest ==> u in uses;
      SameShares(g, nbytes, v, rest);
      OneMoreTime(|rest|, Share(g, nbytes, v));
    }
  }

  ghost predicate Known(nbytes: ValueId -> int, values: seq<ValueId>) {
    forall v :: v in values ==> nbytes(v) >= 0
  }

  /** Bytes written less the shares of the bytes read; 0 as soon as one size is unknown. */
  ghost function MemoryIncrease(g: Snapshot, nbytes: ValueId -> int, node: Node): int {
    if Known(nbytes, node.inputs) && Known(nbytes, node.outputs)
    then SumBytes(nbytes, node.outputs) - SumShares(g, nbytes, node.inputs)
    else 0
  }

  method EstimateMemoryIncrease(g: Snapshot, nbytes: ValueId -> int, n: NodeId) returns (increase: int)
    requires n in g.node && g.DefUse()
    ensures increase == MemoryIncrease(g, nbytes, g.node[n])
  {
    var inputs, outputs := g.node[n].inputs, g.node[n].outputs;
    var inputSize, i := 0, 0;
    while i < |inputs|
      invariant 0 <= i <= |inputs| && 0 <= inputSize
      invariant Known(nbytes, inputs[..i]) && inputSize == SumShares(g, nbytes, inputs[..i])
    {
      var s := nbytes(inputs[i]);
      if s < 0 {
        inputSize := -1;
        break;
      }
      UserReads(g, inputs[i], n);  // so the division below is safe
      assert inputs[..i + 1] == inputs[..i] + [inputs[i]];
      inputSize := inputSize + Share(g, nbytes, inputs[i]);
      i := i + 1;
    }
    assert inputSize >= 0 ==> inputs[..i] == inputs;
    var outputSize, k := 0, 0;
    while k < |outputs|
      invariant 0 <= k <= |outputs| && 0 <= outputSize
      invariant Known(nbytes, outputs[..k]) && outputSize == SumBytes(nbytes, outputs[..k])
    {
      var s := nbytes(outputs[k]);
      if s < 0 {
        outputSize := -1;
        break;
      }
      assert outputs[..k + 1] == outputs[..k] + [outputs[k]];
      outputSize := outputSize + s;
      k := k + 1;
    }
    assert outputSize >= 0 ==> outputs[..k] == outputs;
    increase := if inputSize >= 0 && outputSize >= 0 then outputSize - inputSize else 0;
  }

  /** The nodes the pass may move. */
  ghost predicate Simple(g: Snapshot, nbytes: ValueId -> int, n: NodeId) {
    n in g.node && |g.node[n].inputs| == 1 && |g.node[n].outputs| == 1 && MemoryIncrease(g, nbytes, g.node[n]) >= 0
  }

  // ---- slots ----

  function Flatten<T>(slots: seq<seq<T>>): seq<T> {
    if slots == [] then [] else Flatten(slots[..|slots| - 1]) + Reversed(slots[|slots| - 1])
  }

  ghost function Content<T>(slots: seq<seq<T>>): multiset<T> {
    if slots == [] then multiset{} else Content(slots[..|slots| - 1]) + multiset(slots[|slots| - 1])
  }

  lemma ReversedMultiset<T>(s: seq<T>)
    ensures multiset(Reversed(s)) == multiset(s)
  {
    if s != [] {
      var rest := s[..|s| - 1];
      ReversedMultiset(rest);
      assert s == rest + [s[|s| - 1]];
      assert Reversed(s) == [s[|s| - 1]] + Reversed(rest);
    }
  }

  lemma FlattenContent<T>(slots: seq<seq<T>>)
    ensures multiset(Flatten(slots)) == Content(slots)
  {
    if slots != [] {
      FlattenContent(slots[..|slots| - 1]);
      ReversedMultiset(slots[|slots| - 1]);
    }
  }

  lemma ContentUpdate<T>(slots: seq<seq<T>>, i: nat, x: seq<T>)
    requires i < |slots|
    ensures multiset(slots[i]) <= Content(slots)
    ensures Content(slots[i := x]) == Content(slots) - multiset(slots[i]) + multiset(x)
  {
    var last := |slots| - 1;
    if i < last {
      ContentUpdate(slots[..last], i, x);
      assert slots[i := x][..last] == slots[..last][i := x];
    } else {
      assert slots[i := x][..last] == slots[..last];
    }
  }

  /** The position that `Flatten` gives to entry `k` of slot `s`. */
  function Position<T>(slots: seq<seq<T>>, s: nat, k: nat): (p: nat)
    requires s < |slots| && k < |slots[s]|
    ensures p < |Flatten(slots)| && Flatten(slots)[p] == slots[s][k]
    decreases |slots|
  {
    var last := |slots| - 1;
    if s == last then |Flatten(slots[..last])| + (|slots[last]| - 1 - k) else Position(slots[..last], s, k)
  }

  lemma PositionOrder<T>(slots: seq<seq<T>>, s: nat, k: nat, t: nat, l: nat)
    requires s < |slots| && k < |slots[s]| && t < |slots| && l < |slots[t]|
    requires s < t || (s == t && k > l)
    ensures Position(slots, s, k) < Position(slots, t, l)
  {
    var last := |slots| - 1;
    if t < last { PositionOrder(slots[..last], s, k, t, l); }
  }

  lemma ContentOfSingletons<T>(s: seq<T>, slots: seq<seq<T>>)
    requires |slots| == |s| && forall i :: 0 <= i < |s| ==> slots[i] == [s[i]]
    ensures Content(slots) == multiset(s)
  {
    if s != [] {
      ContentOfSingletons(s[..|s| - 1], slots[..|s| - 1]);
      assert s == s[..|s| - 1] + [s[|s| - 1]];
    }
  }

  // ---- the pass ----

  ghost predicate Indexed(order: seq<NodeId>, index: map<NodeId, nat>) {
    && (forall j :: 0 <= j < |order| ==> order[j] in index && index[order[j]] == j)
    && (forall n :: n in index ==> index[n] < |order| && order[index[n]] == n)
  }

  /** Every node is in the slot `slot` names, its own or a later one. */
  ghost predicate Placed(slots: seq<seq<NodeId>>, index: map<NodeId, nat>, slot: map<NodeId, nat>) {
    && slot.Keys == index.Keys
    && (forall n :: n in index ==> index[n] <= slot[n] < |slots| && InSlot(slots, slot[n], n))
    && (forall n :: n in index && slot[n] == index[n] ==> slots[slot[n]][0] == n)
  }

  ghost predicate InSlot(slots: seq<seq<NodeId>>, s: nat, n: NodeId) {
    s < |slots| && n in slots[s]
  }

  /** ... and nothing else is in the slots. */
  ghost predicate OnlyPlaced(slots: seq<seq<NodeId>>, slot: map<NodeId, nat>) {
    forall s, n :: InSlot(slots, s, n) ==> n in slot && slot[n] == s
  }

  /** Where a moved node went: to the original slot of its first reader. */
  ghost predicate FirstReader(g: Snapshot, index: map<NodeId, nat>, n: NodeId, at: nat) {
    && n in g.node && |g.node[n].outputs| == 1
    && (exists u :: u in g.Users(g.node[n].outputs[0]) && u in index && index[u] == at)
    && (forall u :: u in g.Users(g.node[n].outputs[0]) && u in index ==> at <= index[u])
  }

  ghost predicate MovedWell(g: Snapshot, nbytes: ValueId -> int, index: map<NodeId, nat>, slot: map<NodeId, nat>) {
    forall n :: n in index && n in slot && slot[n] != index[n] ==>
      Simple(g, nbytes, n) && FirstReader(g, index, n, slot[n])
  }

  /** `n` has moved, or may not move because something was put before it. */
  ghost predicate Settled(slots: seq<seq<NodeId>>, index: map<NodeId, nat>, slot: map<NodeId, nat>, n: NodeId) {
    n in index && n in slot && (slot[n] != index[n] || (index[n] < |slots| && |slots[index[n]]| > 1))
  }

  /** Whatever `u` reads from a simple node is settled. */
  ghost predicate Tried(g: Snapshot, nbytes: ValueId -> int, slots: seq<seq<NodeId>>, index: map<NodeId, nat>,
                        slot: map<NodeId, nat>, u: NodeId) {
    u in g.node && forall v :: v in g.node[u].inputs && v in g.producer && Simple(g, nbytes, g.producer[v]) ==>
      Settled(slots, index, slot, g.producer[v])
  }

  ghost predicate Alone(slots: seq<seq<NodeId>>, s: nat) {
    s < |slots| && |slots[s]| == 1
  }

  /** Every node that has moved, or that is alone in its slot behind `done`, has been tried. */
  ghost predicate Thorough(g: Snapshot, nbytes: ValueId -> int, slots: seq<seq<NodeId>>, index: map<NodeId, nat>,
                           slot: map<NodeId, nat>, done: int, exempt: set<NodeId>) {
    forall u :: u in index && u in slot && u !in exempt
                && (slot[u] != index[u] || (index[u] > done && Alone(slots, index[u]))) ==>
      Tried(g, nbytes, slots, index, slot, u)
  }

  /** What is settled stays settled, and what has moved does not come back. */
  ghost predicate Later(index: map<NodeId, nat>, slots: seq<seq<NodeId>>, slot: map<NodeId, nat>,
                        slots': seq<seq<NodeId>>, slot': map<NodeId, nat>) {
    && slot.Keys == slot'.Keys
    && (forall n :: Settled(slots, index, slot, n) ==> Settled(slots', index, slot', n))
    && (forall n :: n in index && n in slot && slot[n] != index[n] ==> slot'[n] != index[n])
  }

  lemma LaterTrans(index: map<NodeId, nat>, slots: seq<seq<NodeId>>, slot: map<NodeId, nat>, slots': seq<seq<NodeId>>,
                   slot': map<NodeId, nat>, slots'': seq<seq<NodeId>>, slot'': map<NodeId, nat>)
    requires Later(index, slots, slot, slots', slot') && Later(index, slots', slot', slots'', slot'')
    ensures Later(index, slots, slot, slots'', slot'')
  {
  }

  lemma LaterSame(index: map<NodeId, nat>, slots: seq<seq<NodeId>>, slot: map<NodeId, nat>)
    ensures Later(index, slots, slot, slots, slot)
  {
  }

  lemma MoveIsLater(index: map<NodeId, nat>, slots: seq<seq<NodeId>>, slot: map<NodeId, nat>, prev: NodeId, to: nat)
    requires Placed(slots, index, slot) && OnlyPlaced(slots, slot)
    requires prev in index && index[prev] < to < |slots| && slots[index[prev]] == [prev]
    ensures Later(index, slots, slot, Moved(slots, index[prev], to, prev), slot[prev := to])
    ensures Settled(Moved(slots, index[prev], to, prev), index, slot[prev := to], prev)
  {
    assert InSlot(slots, index[prev], prev);
  }

  /** A move leaves at most the node that moved untried. */
  lemma MoveIsThorough(g: Snapshot, nbytes: ValueId -> int, index: map<NodeId, nat>, slots: seq<seq<NodeId>>,
                       slot: map<NodeId, nat>, done: int, prev: NodeId, to: nat, exempt: set<NodeId>)
    requires Placed(slots, index, slot) && OnlyPlaced(slots, slot)
    requires prev in index && index[prev] < to < |slots| && slots[index[prev]] == [prev]
    requires Thorough(g, nbytes, slots, index, slot, done, exempt)
    requires forall u :: u in exempt ==> u in g.node && forall v ::
      v in g.node[u].inputs && v in g.producer ==> g.producer[v] == prev
    ensures Thorough(g, nbytes, Moved(slots, index[prev], to, prev), index, slot[prev := to], done, {prev})
  {
    var slots', slot' := Moved(slots, index[prev], to, prev), slot[prev := to];
    MoveIsLater(index, slots, slot, prev, to);
    forall u | u in index && u in slot' && u != prev
               && (slot'[u] != index[u] || (index[u] > done && Alone(slots', index[u])))
      ensures Tried(g, nbytes, slots', index, slot', u)
    {
      if u !in exempt {
        if slot[u] == index[u] { assert slots[slot[u]][0] == u && InSlot(slots, slot[u], u); }
        assert Tried(g, nbytes, slots, index, slot, u);
      }
    }
  }

  /** When a move is refused, the node is settled already. */
  lemma RefusedIsSettled(index: map<NodeId, nat>, slots: seq<seq<NodeId>>, slot: map<NodeId, nat>, prev: NodeId)
    requires Placed(slots, index, slot) && prev in index && index[prev] < |slots|
    requires slots[index[prev]] == [] || |slots[index[prev]]| > 1 || slots[index[prev]][0] != prev
    ensures Settled(slots, index, slot, prev)
  {
  }

  /** The node with the only input that was looked at last has been tried, too. */
  lemma AllTried(g: Snapshot, nbytes: ValueId -> int, slots: seq<seq<NodeId>>, index: map<NodeId, nat>,
                 slot: map<NodeId, nat>, done: int, reader: NodeId, input: ValueId)
    requires Thorough(g, nbytes, slots, index, slot, done, {reader})
    requires reader in g.node && |g.node[reader].inputs| == 1 && input in g.node[reader].inputs
    requires input in g.producer && Simple(g, nbytes, g.producer[input]) ==>
      Settled(slots, index, slot, g.producer[input])
    ensures Thorough(g, nbytes, slots, index, slot, done, {})
  {
    assert forall v :: v in g.node[reader].inputs ==> v == input;
    assert Tried(g, nbytes, slots, index, slot, reader);
  }

  /** One delay: `prev` leaves its slot and is pushed on a later one. */
  lemma MoveKeepsPlaced(slots: seq<seq<NodeId>>, index: map<NodeId, nat>, slot: map<NodeId, nat>,
                        prev: NodeId, to: nat)
    requires Placed(slots, index, slot) && OnlyPlaced(slots, slot)
    requires prev in index && index[prev] < to < |slots| && slots[index[prev]] == [prev]
    ensures Placed(Moved(slots, index[prev], to, prev), index, slot[prev := to])
    ensures OnlyPlaced(Moved(slots, index[prev], to, prev), slot[prev := to])
  {
    var from := index[prev];
    var slots' := Moved(slots, from, to, prev);
    var slot' := slot[prev := to];
    assert InSlot(slots, from, prev);
    forall n: NodeId, s: nat ensures InSlot(slots', s, n) <==> if n == prev then s == to else InSlot(slots, s, n) {
      MemberMoves(slots, from, to, prev, s, n);
    }
    forall n | n in index && slot'[n] == index[n] ensures slots'[slot'[n]][0] == n {
      assert slots[slot[n]][0] == n;
    }
  }

  lemma MoveKeepsContent(slots: seq<seq<NodeId>>, from: nat, to: nat, prev: NodeId)
    requires from < to < |slots| && slots[from] == [prev]
    ensures Content(Moved(slots, from, to, prev)) == Content(slots)
  {
    ContentUpdate(slots, from, []);
    ContentUpdate(slots[from := []], to, slots[to] + [prev]);
  }

  ghost function Moved(slots: seq<seq<NodeId>>, from: nat, to: nat, n: NodeId): seq<seq<NodeId>>
    requires from < |slots| && to < |slots| && from != to
  {
    slots[from := []][to := slots[to] + [n]]
  }

  lemma MemberMoves(slots: seq<seq<NodeId>>, from: nat, to: nat, prev: NodeId, s: nat, n: NodeId)
    requires from < |slots| && to < |slots| && from != to && slots[from] == [prev]
    requires forall t :: InSlot(slots, t, prev) ==> t == from
    ensures InSlot(Moved(slots, from, to, prev), s, n) <==> if n == prev then s == to else InSlot(slots, s, n)
  {
    if s == to {
      assert n in slots[to] + [prev] <==> n in slots[to] || n == prev;
      assert prev in slots[to] ==> InSlot(slots, to, prev);
    } else if s == from {
      assert Moved(slots, from, to, prev)[s] == [];
    } else if s < |slots| {
      assert Moved(slots, from, to, prev)[s] == slots[s];
      assert prev in slots[s] ==> InSlot(slots, s, prev);
    }
  }

  /** The producer of something a scheduled node reads sits in an earlier slot. */
  lemma ProducerEarlier(g: Snapshot, order: seq<NodeId>, index: map<NodeId, nat>, n: NodeId, v: ValueId)
    requires Schedule(g, order) && Indexed(order, index)
    requires n in index && v in g.node[n].inputs && v in g.producer
    ensures g.producer[v] in index && index[g.producer[v]] < index[n]
  {
    var j := index[n];
    assert order[j] == n;
    var k :| 0 <= k < j && order[..j][k] == g.producer[v];
    assert order[k] == g.producer[v];
  }

  /** The delayed order is still a schedule, and only simple nodes were overtaken. */
  lemma FlattenIsSchedule(g: Snapshot, nbytes: ValueId -> int, order: seq<NodeId>, index: map<NodeId, nat>,
                          slots: seq<seq<NodeId>>, slot: map<NodeId, nat>)
    requires g.DefUse() && g.Ssa()
    requires Schedule(g, order) && Indexed(order, index) && Placed(slots, index, slot)
    requires MovedWell(g, nbytes, index, slot) && Content(slots) == multiset(order)
    ensures multiset(Flatten(slots)) == multiset(order)
    ensures Schedule(g, Flatten(slots))
    ensures OnlySimpleOvertaken(g, nbytes, order, Flatten(slots))
  {
    hide Flatten, Content, MovedWell, Schedule, OnlySimpleOvertaken, Placed, Indexed, g.DefUse, g.Ssa;
    var out := Flatten(slots);
    FlattenContent(slots);
    FlattenIsOrdered(g, nbytes, order, index, slots, slot);
    FlattenOvertakesSimple(g, nbytes, order, index, slots, slot);
  }

  /** What comes out is what was in the order. */
  lemma FlattenMembers(g: Snapshot, order: seq<NodeId>, index: map<NodeId, nat>, slots: seq<seq<NodeId>>)
    requires Schedule(g, order) && Indexed(order, index) && Content(slots) == multiset(order)
    ensures Distinct(Flatten(slots))
    ensures forall j :: 0 <= j < |Flatten(slots)| ==> Flatten(slots)[j] in g.node && Flatten(slots)[j] in index
  {
    hide Flatten, Content;
    var out := Flatten(slots);
    FlattenContent(slots);
    DistinctMultiset(order);
    DistinctMultiset(out);
    forall j | 0 <= j < |out| ensures out[j] in g.node && out[j] in index {
      assert out[j] in multiset(out);
      assert out[j] in order;
    }
  }

  lemma FlattenIsOrdered(g: Snapshot, nbytes: ValueId -> int, order: seq<NodeId>, index: map<NodeId, nat>,
                         slots: seq<seq<NodeId>>, slot: map<NodeId, nat>)
    requires g.DefUse() && g.Ssa()
    requires Schedule(g, order) && Indexed(order, index) && Placed(slots, index, slot)
    requires MovedWell(g, nbytes, index, slot) && Content(slots) == multiset(order)
    ensures Schedule(g, Flatten(slots))
  {
    hide Flatten, Content, g.DefUse, g.Ssa, Indexed, Placed, MovedWell;
    FlattenMembers(g, order, index, slots);
    forall j, v | 0 <= j < |Flatten(slots)| && v in g.node[Flatten(slots)[j]].inputs && v in g.producer
      ensures g.producer[v] in Flatten(slots)[..j]
    {
      FlattenedBefore(g, nbytes, order, index, slots, slot, j, v);
    }
  }

  lemma FlattenedBefore(g: Snapshot, nbytes: ValueId -> int, order: seq<NodeId>, index: map<NodeId, nat>,
                        slots: seq<seq<NodeId>>, slot: map<NodeId, nat>, j: nat, v: ValueId)
    requires g.DefUse() && g.Ssa()
    requires Schedule(g, order) && Indexed(order, index) && Placed(slots, index, slot)
    requires MovedWell(g, nbytes, index, slot)
    requires Distinct(Flatten(slots)) && j < |Flatten(slots)| && Flatten(slots)[j] in g.node
    requires Flatten(slots)[j] in index
    requires v in g.node[Flatten(slots)[j]].inputs && v in g.producer
    ensures g.producer[v] in Flatten(slots)[..j]
  {
    hide Flatten, g.DefUse, Indexed, MovedWell, Distinct, Schedule;
    var out := Flatten(slots);
    var w, p := out[j], g.producer[v];
    ProducerEarlier(g, order, index, w, v);
    NotPastReader(g, nbytes, index, slot, p, w, v);
    var i := EarlierInFlatten(slots, index, slot, p, w, j);
    assert out[..j][i] == p;
  }

  lemma NotPastReader(g: Snapshot, nbytes: ValueId -> int, index: map<NodeId, nat>, slot: map<NodeId, nat>,
                      p: NodeId, w: NodeId, v: ValueId)
    requires g.DefUse() && g.Ssa() && MovedWell(g, nbytes, index, slot) && slot.Keys == index.Keys
    requires p in index && w in index && index[p] < index[w]
    requires w in g.node && v in g.node[w].inputs && v in g.producer && g.producer[v] == p
    ensures slot[p] <= index[w]
  {
    hide g.DefUse;
    if slot[p] != index[p] {
      UserReads(g, v, w);
      assert v in g.node[p].outputs;
      assert v == g.node[p].outputs[0];
    }
  }

  lemma FlattenOvertakesSimple(g: Snapshot, nbytes: ValueId -> int, order: seq<NodeId>, index: map<NodeId, nat>,
                               slots: seq<seq<NodeId>>, slot: map<NodeId, nat>)
    requires Schedule(g, order) && Indexed(order, index) && Placed(slots, index, slot)
    requires MovedWell(g, nbytes, index, slot) && Content(slots) == multiset(order)
    ensures OnlySimpleOvertaken(g, nbytes, order, Flatten(slots))
  {
    hide Flatten, Content;
    var out := Flatten(slots);
    FlattenMembers(g, order, index, slots);
    forall i, j | 0 <= i < j < |out| && Before(order, out[j], out[i])
      ensures Simple(g, nbytes, out[j])
    {
      var a, b := out[j], out[i];
      assert index[a] < index[b];
      if slot[a] == index[a] {
        var _ := EarlierInFlatten(slots, index, slot, a, b, i);
        assert false;
      }
    }
  }

  /** A node comes out before every other node that its slot does not come after. */
  lemma EarlierInFlatten(slots: seq<seq<NodeId>>, index: map<NodeId, nat>, slot: map<NodeId, nat>,
                         p: NodeId, w: NodeId, j: nat)
    returns (i: nat)
    requires Placed(slots, index, slot) && Distinct(Flatten(slots))
    requires p in index && w in index && p != w && slot[p] <= index[w]
    requires j < |Flatten(slots)| && Flatten(slots)[j] == w
    ensures i < j && Flatten(slots)[i] == p
  {
    assert InSlot(slots, slot[p], p) && InSlot(slots, slot[w], w);
    var k :| 0 <= k < |slots[slot[p]]| && slots[slot[p]][k] == p;
    var l :| 0 <= l < |slots[slot[w]]| && slots[slot[w]][l] == w && (slot[w] == index[w] ==> l == 0);
    PositionOrder(slots, slot[p], k, slot[w], l);
    i := Position(slots, slot[p], k);
    SamePosition(Flatten(slots), Position(slots, slot[w], l), j);
  }

  lemma SamePosition(s: seq<NodeId>, i: nat, j: nat)
    requires Distinct(s) && i < |s| && j < |s| && s[i] == s[j]
    ensures i == j
  {
  }

  lemma ReadersLater(g: Snapshot, order: seq<NodeId>, index: map<NodeId, nat>, v: ValueId)
    requires g.DefUse() && Schedule(g, order) && Indexed(order, index) && v in g.producer
    ensures forall u :: u in g.Users(v) && u in index ==>
      g.producer[v] in index && index[g.producer[v]] < index[u]
  {
    forall u | u in g.Users(v) && u in index
      ensures g.producer[v] in index && index[g.producer[v]] < index[u]
    {
      UserReads(g, v, u);
      ProducerEarlier(g, order, index, u, v);
    }
  }

  ghost predicate Before(order: seq<NodeId>, a: NodeId, b: NodeId) {
    exists i, j :: 0 <= i < j < |order| && order[i] == a && order[j] == b
  }

  /** Whenever two nodes changed places, the one that is later now is simple. */
  ghost predicate OnlySimpleOvertaken(g: Snapshot, nbytes: ValueId -> int, order: seq<NodeId>, out: seq<NodeId>) {
    forall i, j :: 0 <= i < j < |out| && Before(order, out[j], out[i]) ==> Simple(g, nbytes, out[j])
  }

  lemma SingletonsPlaced(order: seq<NodeId>, index: map<NodeId, nat>, slots: seq<seq<NodeId>>)
    requires Indexed(order, index) && |slots| == |order|
    requires forall j :: 0 <= j < |order| ==> slots[j] == [order[j]]
    ensures Placed(slots, index, index) && OnlyPlaced(slots, index) && Content(slots) == multiset(order)
  {
    ContentOfSingletons(order, slots);
  }

  lemma PlacedNode(g: Snapshot, order: seq<NodeId>, slots: seq<seq<NodeId>>, index: map<NodeId, nat>,
                   slot: map<NodeId, nat>, i: nat, node: NodeId)
    requires Schedule(g, order) && Indexed(order, index)
    requires Placed(slots, index, slot) && OnlyPlaced(slots, slot) && i < |slots| && node in slots[i]
    ensures node in index && index[node] <= i && node in g.node
  {
    assert InSlot(slots, i, node);
  }

  method DelaySimpleNodes(g: Snapshot, nbytes: ValueId -> int, nodesIn: seq<NodeId>)
    returns (reordered: seq<NodeId>, ghost index: map<NodeId, nat>, ghost slot: map<NodeId, nat>,
             ghost slots: seq<seq<NodeId>>)
    requires g.DefUse() && g.Ssa() && Schedule(g, nodesIn)
    ensures multiset(reordered) == multiset(nodesIn)
    ensures Schedule(g, reordered)
    ensures OnlySimpleOvertaken(g, nbytes, nodesIn, reordered)
    // Each node keeps its slot or moves, once, to the original slot of its first reader.
    ensures Indexed(nodesIn, index) && reordered == Flatten(slots) && |slots| == |nodesIn|
    ensures Placed(slots, index, slot) && OnlyPlaced(slots, slot) && MovedWell(g, nbytes, index, slot)
    // A simple node read by a node that moved, or that is alone in its slot, moves
    // unless something was put before it.
    ensures Thorough(g, nbytes, slots, index, slot, -1, {})
  {
    var work, nodeToIndex := SlotPerNode(nodesIn);
    index, slot := nodeToIndex, nodeToIndex;
    SingletonsPlaced(nodesIn, index, work);
    NothingTried(g, nbytes, nodesIn, work, index);
    hide Placed, OnlyPlaced, MovedWell, Schedule, Thorough, Later, Indexed;
    var i := |work| - 1;
    while i >= 0
      invariant -1 <= i < |work| == |nodesIn|
      invariant Placed(work, index, slot) && OnlyPlaced(work, slot) && MovedWell(g, nbytes, index, slot)
      invariant Content(work) == multiset(nodesIn) && Thorough(g, nbytes, work, index, slot, i, {})
    {
      ghost var before, slotBefore := work, slot;
      if |work[i]| == 1 {
        work, slot := DelayInputs(g, nbytes, nodesIn, nodeToIndex, work, slot, i);
      } else {
        LaterSame(index, work, slot);
      }
      SlotTried(g, nbytes, nodesIn, index, before, slotBefore, work, slot, i);
      i := i - 1;
    }
    FlattenIsSchedule(g, nbytes, nodesIn, index, work, slot);
    reordered := Concatenate(work);
    slots := work;
  }

  lemma NothingTried(g: Snapshot, nbytes: ValueId -> int, order: seq<NodeId>, slots: seq<seq<NodeId>>,
                     index: map<NodeId, nat>)
    requires Indexed(order, index) && |slots| == |order|
    ensures Thorough(g, nbytes, slots, index, index, |slots| - 1, {})
  {
  }

  /** Slot `i` is dealt with: its node has been tried if it stayed there alone. */
  lemma SlotTried(g: Snapshot, nbytes: ValueId -> int, order: seq<NodeId>, index: map<NodeId, nat>,
                  slots: seq<seq<NodeId>>, slot: map<NodeId, nat>, slots': seq<seq<NodeId>>, slot': map<NodeId, nat>,
                  i: nat)
    requires Indexed(order, index) && i < |slots| == |order|
    requires Placed(slots, index, slot) && Placed(slots', index, slot') && Later(index, slots, slot, slots', slot')
    requires Thorough(g, nbytes, slots', index, slot', i, {})
    requires if |slots[i]| == 1 then Tried(g, nbytes, slots', index, slot', slots[i][0])
             else slots' == slots && slot' == slot
    ensures Thorough(g, nbytes, slots', index, slot', i - 1, {})
  {
    forall u | u in index && u in slot' && (slot'[u] != index[u] || (index[u] > i - 1 && Alone(slots', index[u])))
      ensures Tried(g, nbytes, slots', index, slot', u)
    {
      if slot'[u] == index[u] && index[u] <= i {
        assert slot[u] == index[u] && InSlot(slots, slot[u], u);
        assert slots[i][0] == u;
      }
    }
  }

  method SlotPerNode(nodesIn: seq<NodeId>) returns (slots: seq<seq<NodeId>>, nodeToIndex: map<NodeId, nat>)
    requires Distinct(nodesIn)
    ensures |slots| == |nodesIn| && forall j :: 0 <= j < |nodesIn| ==> slots[j] == [nodesIn[j]]
    ensures Indexed(nodesIn, nodeToIndex)
  {
    slots, nodeToIndex := [], map[];
    var i := 0;
    while i < |nodesIn|
      invariant 0 <= i <= |nodesIn| && |slots| == i
      invariant forall j :: 0 <= j < i ==> slots[j] == [nodesIn[j]]
      invariant Indexed(nodesIn[..i], nodeToIndex)
    {
      slots := slots + [[nodesIn[i]]];
      nodeToIndex := nodeToIndex[nodesIn[i] := i];
      i := i + 1;
    }
    assert nodesIn[..i] == nodesIn;
  }

  method Concatenate(slots: seq<seq<NodeId>>) returns (reordered: seq<NodeId>)
    ensures reordered == Flatten(slots)
  {
    reordered := [];
    var i := 0;
    while i < |slots|
      invariant 0 <= i <= |slots| && reordered == Flatten(slots[..i])
    {
      assert slots[..i + 1][..i] == slots[..i];
      reordered := reordered + Reversed(slots[i]);
      i := i + 1;
    }
    assert slots[..i] == slots;
  }

  /** Tries every input of the one node in slot `i`. */
  method DelayInputs(g: Snapshot, nbytes: ValueId -> int, nodesIn: seq<NodeId>, index: map<NodeId, nat>,
                     slotsIn: seq<seq<NodeId>>, ghost slotIn: map<NodeId, nat>, i: nat)
    returns (slots: seq<seq<NodeId>>, ghost slot: map<NodeId, nat>)
    requires g.DefUse() && g.Ssa() && Schedule(g, nodesIn) && Indexed(nodesIn, index)
    requires Placed(slotsIn, index, slotIn) && OnlyPlaced(slotsIn, slotIn)
    requires MovedWell(g, nbytes, index, slotIn) && |slotsIn| == |nodesIn|
    requires i < |slotsIn| && |slotsIn[i]| == 1 && Thorough(g, nbytes, slotsIn, index, slotIn, i, {})
    ensures Placed(slots, index, slot) && OnlyPlaced(slots, slot) && MovedWell(g, nbytes, index, slot)
    ensures |slots| == |slotsIn| && Content(slots) == Content(slotsIn)
    ensures Thorough(g, nbytes, slots, index, slot, i, {}) && Tried(g, nbytes, slots, index, slot, slotsIn[i][0])
    ensures Later(index, slotsIn, slotIn, slots, slot)
  {
    slots, slot := slotsIn, slotIn;
    var node, k := slots[i][0], 0;
    PlacedNode(g, nodesIn, slots, index, slot, i, node);
    LaterSame(index, slots, slot);
    hide *;
    NoInputsTried(g, nbytes, slots, index, slot, node);
    while k < |g.node[node].inputs|
      invariant 0 <= k <= |g.node[node].inputs|
      invariant |slots| == |slotsIn| && Content(slots) == Content(slotsIn)
      invariant Placed(slots, index, slot) && OnlyPlaced(slots, slot) && MovedWell(g, nbytes, index, slot)
      invariant Thorough(g, nbytes, slots, index, slot, i, {}) && Later(index, slotsIn, slotIn, slots, slot)
      invariant InputsTried(g, nbytes, slots, index, slot, node, k)
    {
      ghost var before, slotBefore := slots, slot;
      slots, slot := DelayChain(g, nbytes, nodesIn, index, slots, slot, i, node, g.node[node].inputs[k]);
      LaterTrans(index, slotsIn, slotIn, before, slotBefore, slots, slot);
      InputsTriedNext(g, nbytes, before, slotBefore, slots, index, slot, node, k);
      k := k + 1;
    }
    NodeTried(g, nbytes, slots, index, slot, node);
  }

  /** The first `k` inputs of `node` have been dealt with. */
  ghost predicate InputsTried(g: Snapshot, nbytes: ValueId -> int, slots: seq<seq<NodeId>>, index: map<NodeId, nat>,
                              slot: map<NodeId, nat>, node: NodeId, k: nat) {
    && node in g.node && k <= |g.node[node].inputs|
    && forall j :: 0 <= j < k ==> InputTried(g, nbytes, slots, index, slot, g.node[node].inputs[j])
  }

  lemma NoInputsTried(g: Snapshot, nbytes: ValueId -> int, slots: seq<seq<NodeId>>, index: map<NodeId, nat>,
                      slot: map<NodeId, nat>, node: NodeId)
    requires node in g.node
    ensures InputsTried(g, nbytes, slots, index, slot, node, 0)
  {
  }

  lemma InputsTriedNext(g: Snapshot, nbytes: ValueId -> int, slots: seq<seq<NodeId>>, slot: map<NodeId, nat>,
                        slots': seq<seq<NodeId>>, index: map<NodeId, nat>, slot': map<NodeId, nat>, node: NodeId,
                        k: nat)
    requires InputsTried(g, nbytes, slots, index, slot, node, k) && k < |g.node[node].inputs|
    requires Later(index, slots, slot, slots', slot')
    requires InputTried(g, nbytes, slots', index, slot', g.node[node].inputs[k])
    ensures InputsTried(g, nbytes, slots', index, slot', node, k + 1)
  {
    hide Settled, Simple;
  }

  lemma NodeTried(g: Snapshot, nbytes: ValueId -> int, slots: seq<seq<NodeId>>, index: map<NodeId, nat>,
                  slot: map<NodeId, nat>, node: NodeId)
    requires node in g.node && InputsTried(g, nbytes, slots, index, slot, node, |g.node[node].inputs|)
    ensures Tried(g, nbytes, slots, index, slot, node)
  {
    hide Settled, Simple;
    forall v | v in g.node[node].inputs && v in g.producer && Simple(g, nbytes, g.producer[v])
      ensures Settled(slots, index, slot, g.producer[v])
    {
      var j :| 0 <= j < |g.node[node].inputs| && g.node[node].inputs[j] == v;
      assert InputTried(g, nbytes, slots, index, slot, g.node[node].inputs[j]);
    }
  }

  /** `v` comes from a node that is settled, or that is not simple, or from none. */
  ghost predicate InputTried(g: Snapshot, nbytes: ValueId -> int, slots: seq<seq<NodeId>>, index: map<NodeId, nat>,
                             slot: map<NodeId, nat>, v: ValueId) {
    v in g.producer && Simple(g, nbytes, g.producer[v]) ==> Settled(slots, index, slot, g.producer[v])
  }

  /** The inner `while`: walks up the chain of producers from one input of `node`. */
  method DelayChain(g: Snapshot, nbytes: ValueId -> int, nodesIn: seq<NodeId>, index: map<NodeId, nat>,
                    slotsIn: seq<seq<NodeId>>, ghost slotIn: map<NodeId, nat>,
                    i: nat, node: NodeId, inputIn: ValueId)
    returns (slots: seq<seq<NodeId>>, ghost slot: map<NodeId, nat>)
    requires g.DefUse() && g.Ssa() && Schedule(g, nodesIn) && Indexed(nodesIn, index)
    requires Placed(slotsIn, index, slotIn) && OnlyPlaced(slotsIn, slotIn)
    requires MovedWell(g, nbytes, index, slotIn) && |slotsIn| == |nodesIn|
    requires node in index && index[node] <= i < |slotsIn| && inputIn in g.node[node].inputs
    requires Thorough(g, nbytes, slotsIn, index, slotIn, i, {})
    ensures Placed(slots, index, slot) && OnlyPlaced(slots, slot) && MovedWell(g, nbytes, index, slot)
    ensures |slots| == |slotsIn| && Content(slots) == Content(slotsIn)
    ensures Thorough(g, nbytes, slots, index, slot, i, {}) && Later(index, slotsIn, slotIn, slots, slot)
    ensures InputTried(g, nbytes, slots, index, slot, inputIn)
  {
    ChainStarts(g, nbytes, nodesIn, index, slotsIn, slotIn, i, node, inputIn);
    hide *;
    slots, slot := slotsIn, slotIn;
    var input, to := inputIn, i;
    ghost var reader := node;
    while input in g.producer
      invariant reader in index && index[reader] <= to < |slots| == |slotsIn|
      invariant Chaining(g, nbytes, index, slotsIn, slotIn, slots, slot, i, node, inputIn, reader, input)
      decreases index[reader]
    {
      var prev := g.producer[input];
      ChainFacts(g, nbytes, nodesIn, index, slotsIn, slotIn, slots, slot, i, node, inputIn, reader, input);
      if |g.node[prev].inputs| != 1 || |g.node[prev].outputs| != 1 { break; }
      var memoryIncrease := EstimateMemoryIncrease(g, nbytes, prev);
      if memoryIncrease < 0 { break; }
      to := FirstReaderSlot(g, index, input, to, reader);
      var from := index[prev];
      if slots[from] == [] { break; }
      if |slots[from]| > 1 || slots[from][0] != prev { break; }
      ChainMoves(g, nbytes, nodesIn, index, slotsIn, slotIn, slots, slot, i, node, inputIn, reader, input, to);
      slots := slots[from := []][to := slots[to] + [prev]];
      slot := slot[prev := to];
      reader, input := prev, g.node[prev].inputs[0];
    }
    ChainEnds(g, nbytes, nodesIn, index, slotsIn, slotIn, slots, slot, i, node, inputIn, reader, input);
  }

  /** What the walk keeps. */
  ghost predicate Chaining(g: Snapshot, nbytes: ValueId -> int, index: map<NodeId, nat>, slotsIn: seq<seq<NodeId>>,
                           slotIn: map<NodeId, nat>, slots: seq<seq<NodeId>>, slot: map<NodeId, nat>, i: nat,
                           node: NodeId, first: ValueId, reader: NodeId, input: ValueId) {
    && |slots| == |slotsIn| && node in index && reader in index && index[reader] <= index[node] <= i
    && Placed(slots, index, slot) && OnlyPlaced(slots, slot) && MovedWell(g, nbytes, index, slot)
    && Content(slots) == Content(slotsIn) && Later(index, slotsIn, slotIn, slots, slot)
    && Walking(g, nbytes, slots, index, slot, i, node, first, reader, input)
  }

  lemma ChainStarts(g: Snapshot, nbytes: ValueId -> int, order: seq<NodeId>, index: map<NodeId, nat>,
                    slots: seq<seq<NodeId>>, slot: map<NodeId, nat>, i: nat, node: NodeId, first: ValueId)
    requires Schedule(g, order) && Indexed(order, index) && node in index && first in g.node[node].inputs
    requires Placed(slots, index, slot) && OnlyPlaced(slots, slot) && MovedWell(g, nbytes, index, slot)
    requires Thorough(g, nbytes, slots, index, slot, i, {}) && index[node] <= i
    ensures Chaining(g, nbytes, index, slots, slot, slots, slot, i, node, first, node, first)
  {
  }

  /** What the walk is about to look at. */
  lemma ChainFacts(g: Snapshot, nbytes: ValueId -> int, order: seq<NodeId>, index: map<NodeId, nat>,
                   slotsIn: seq<seq<NodeId>>, slotIn: map<NodeId, nat>, slots: seq<seq<NodeId>>,
                   slot: map<NodeId, nat>, i: nat, node: NodeId, first: ValueId, reader: NodeId, input: ValueId)
    requires g.DefUse() && g.Ssa() && Schedule(g, order) && Indexed(order, index) && |slots| == |order|
    requires Chaining(g, nbytes, index, slotsIn, slotIn, slots, slot, i, node, first, reader, input)
    requires input in g.producer
    ensures
      var prev := g.producer[input];
      && reader in g.node && input in g.node[reader].inputs && prev in g.node && prev in index
      && index[prev] < index[reader] && index[prev] < |slots|
      && forall u :: u in g.Users(input) && u in index ==> index[prev] < index[u]
  {
    hide Placed, OnlyPlaced, MovedWell, Content, Later, Thorough, g.DefUse, g.Ssa;
    ReadersLater(g, order, index, input);
    ProducerEarlier(g, order, index, reader, input);
  }

  lemma ChainMoves(g: Snapshot, nbytes: ValueId -> int, order: seq<NodeId>, index: map<NodeId, nat>,
                   slotsIn: seq<seq<NodeId>>, slotIn: map<NodeId, nat>, slots: seq<seq<NodeId>>, slot: map<NodeId, nat>,
                   i: nat, node: NodeId, first: ValueId, reader: NodeId, input: ValueId, to: nat)
    requires g.DefUse() && g.Ssa() && Schedule(g, order) && Indexed(order, index) && |slots| == |order|
    requires Chaining(g, nbytes, index, slotsIn, slotIn, slots, slot, i, node, first, reader, input)
    requires input in g.producer && g.producer[input] in index && g.producer[input] in g.node
    requires index[g.producer[input]] < |slots| && |slots[index[g.producer[input]]]| == 1
    requires slots[index[g.producer[input]]][0] == g.producer[input]
    requires |g.node[g.producer[input]].inputs| == 1 && |g.node[g.producer[input]].outputs| == 1
    requires MemoryIncrease(g, nbytes, g.node[g.producer[input]]) >= 0
    requires to < |slots| && exists u :: u in g.Users(input) && u in index && index[u] == to
    requires forall u :: u in g.Users(input) && u in index ==> to <= index[u]
    ensures
      var prev := g.producer[input];
      && index[prev] < to && |Moved(slots, index[prev], to, prev)| == |slots|
      && Chaining(g, nbytes, index, slotsIn, slotIn, Moved(slots, index[prev], to, prev), slot[prev := to],
                  i, node, first, prev, g.node[prev].inputs[0])
  {
    hide Placed, OnlyPlaced, MovedWell, Content, Later, Walking, g.DefUse, g.Ssa;
    var prev := g.producer[input];
    ChainFacts(g, nbytes, order, index, slotsIn, slotIn, slots, slot, i, node, first, reader, input);
    assert slots[index[prev]] == [prev];
    MoveKeepsPlaced(slots, index, slot, prev, to);
    MoveKeepsContent(slots, index[prev], to, prev);
    MoveIsGood(g, nbytes, index, slot, prev, input, to);
    MoveKeepsWalking(g, nbytes, slots, index, slot, i, node, first, reader, input, prev, to);
    MoveIsLater(index, slots, slot, prev, to);
    LaterTrans(index, slotsIn, slotIn, slots, slot, Moved(slots, index[prev], to, prev), slot[prev := to]);
  }

  /** The walk ends at a value that has no producer, at one whose producer is not simple,
      or at one whose producer is settled. */
  lemma ChainEnds(g: Snapshot, nbytes: ValueId -> int, order: seq<NodeId>, index: map<NodeId, nat>,
                  slotsIn: seq<seq<NodeId>>, slotIn: map<NodeId, nat>, slots: seq<seq<NodeId>>,
                  slot: map<NodeId, nat>, i: nat, node: NodeId, first: ValueId, reader: NodeId, input: ValueId)
    requires g.DefUse() && g.Ssa() && Schedule(g, order) && Indexed(order, index) && |slots| == |order|
    requires Chaining(g, nbytes, index, slotsIn, slotIn, slots, slot, i, node, first, reader, input)
    requires input in g.producer ==>
      var prev := g.producer[input];
      prev in g.node && prev in index && index[prev] < |slots| &&
      (|g.node[prev].inputs| != 1 || |g.node[prev].outputs| != 1 || MemoryIncrease(g, nbytes, g.node[prev]) < 0
       || slots[index[prev]] == [] || |slots[index[prev]]| > 1 || slots[index[prev]][0] != prev)
    ensures Placed(slots, index, slot) && OnlyPlaced(slots, slot) && MovedWell(g, nbytes, index, slot)
    ensures Content(slots) == Content(slotsIn) && Later(index, slotsIn, slotIn, slots, slot)
    ensures Thorough(g, nbytes, slots, index, slot, i, {}) && InputTried(g, nbytes, slots, index, slot, first)
  {
    hide OnlyPlaced, MovedWell, Content, Later, g.DefUse, g.Ssa;
    if input in g.producer && Simple(g, nbytes, g.producer[input]) {
      RefusedIsSettled(index, slots, slot, g.producer[input]);
    }
    EndOfChain(g, nbytes, slots, index, slot, i, node, first, reader, input);
  }

  /** The walk has reached `input` of `reader`: only `reader` may have moved and not been tried. */
  ghost predicate Walking(g: Snapshot, nbytes: ValueId -> int, slots: seq<seq<NodeId>>, index: map<NodeId, nat>,
                          slot: map<NodeId, nat>, done: int, node: NodeId, first: ValueId, reader: NodeId,
                          input: ValueId) {
    && reader in g.node && input in g.node[reader].inputs
    && if reader == node then Thorough(g, nbytes, slots, index, slot, done, {}) && input == first
       else Thorough(g, nbytes, slots, index, slot, done, {reader}) && |g.node[reader].inputs| == 1
            && InputTried(g, nbytes, slots, index, slot, first)
  }

  lemma MoveIsGood(g: Snapshot, nbytes: ValueId -> int, index: map<NodeId, nat>, slot: map<NodeId, nat>, prev: NodeId,
                   input: ValueId, to: nat)
    requires MovedWell(g, nbytes, index, slot) && g.Ssa()
    requires input in g.producer && g.producer[input] == prev && Simple(g, nbytes, prev)
    requires exists u :: u in g.Users(input) && u in index && index[u] == to
    requires forall u :: u in g.Users(input) && u in index ==> to <= index[u]
    ensures MovedWell(g, nbytes, index, slot[prev := to])
  {
    assert g.node[prev].outputs[0] == input;
    assert FirstReader(g, index, prev, to);
  }

  lemma MoveKeepsWalking(g: Snapshot, nbytes: ValueId -> int, slots: seq<seq<NodeId>>, index: map<NodeId, nat>,
                         slot: map<NodeId, nat>, done: int, node: NodeId, first: ValueId, reader: NodeId,
                         input: ValueId, prev: NodeId, to: nat)
    requires Placed(slots, index, slot) && OnlyPlaced(slots, slot)
    requires Walking(g, nbytes, slots, index, slot, done, node, first, reader, input)
    requires input in g.producer && g.producer[input] == prev && prev in g.node && |g.node[prev].inputs| == 1
    requires node in index && reader in index && prev in index && index[prev] < index[reader] <= index[node]
    requires index[prev] < to < |slots| && slots[index[prev]] == [prev]
    ensures Walking(g, nbytes, Moved(slots, index[prev], to, prev), index, slot[prev := to], done, node, first,
                    prev, g.node[prev].inputs[0])
  {
    hide Placed, OnlyPlaced, Thorough, Settled, Simple;
    var exempt: set<NodeId> := if reader == node then {} else {reader};
    assert forall v :: |g.node[reader].inputs| == 1 && v in g.node[reader].inputs ==> v == input;
    MoveIsThorough(g, nbytes, index, slots, slot, done, prev, to, exempt);
    MoveIsLater(index, slots, slot, prev, to);
  }

  lemma EndOfChain(g: Snapshot, nbytes: ValueId -> int, slots: seq<seq<NodeId>>, index: map<NodeId, nat>,
                   slot: map<NodeId, nat>, done: int, node: NodeId, first: ValueId, reader: NodeId, input: ValueId)
    requires Walking(g, nbytes, slots, index, slot, done, node, first, reader, input)
    requires InputTried(g, nbytes, slots, index, slot, input)
    ensures Thorough(g, nbytes, slots, index, slot, done, {}) && InputTried(g, nbytes, slots, index, slot, first)
  {
    if reader != node { AllTried(g, nbytes, slots, index, slot, done, reader, input); }
  }

  /** `to` lowered to the least original slot of a scheduled user of `input`. */
  method FirstReaderSlot(g: Snapshot, index: map<NodeId, nat>, input: ValueId, start: nat, ghost reader: NodeId)
    returns (to: nat)
    requires g.DefUse() && reader in g.node && reader in index && input in g.node[reader].inputs
    requires index[reader] <= start
    ensures to <= start
    ensures exists u :: u in g.Users(input) && u in index && index[u] == to
    ensures forall u :: u in g.Users(input) && u in index ==> to <= index[u]
  {
    to := start;
    var users, k := g.Users(input), 0;
    UserReads(g, input, reader);
    while k < |users|
      invariant 0 <= k <= |users| && to <= start
      invariant to == start || exists u :: u in users && u in index && index[u] == to
      invariant forall j :: 0 <= j < k && users[j] in index ==> to <= index[users[j]]
    {
      if users[k] in index {
        if index[users[k]] < to { to := index[users[k]]; }
      }
      k := k + 1;
    }
    assert to <= index[reader];
  }
}
