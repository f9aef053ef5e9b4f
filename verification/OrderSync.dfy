/** compiler/gradient_with_order.cc:357-421: when gradients stay complete under given orders, told
    by the orders alone: which holders have a gradient, and which have the current one. */
module OrderSync {
  import opened Ir
  import opened OrderPlan
  import opened OrderGradients

  /** A holder that stands for a value. */
  datatype Stand = Stand(h: Holder, v: ValueId)

  /** The holders with a gradient, and those, beside the forward values themselves, whose gradient
      is that of their value. */
  datatype Track = Track(have: set<Holder>, current: set<Stand>)

  /** After gradients of `vs` have been copied to `hs`. */
  function Gathered(have: set<Holder>, hs: seq<Holder>, vs: seq<ValueId>): set<Holder>
    requires |hs| == |vs|
  {
    (have - SetOf(hs)) + set i | 0 <= i < |hs| && Forward(vs[i]) in have :: hs[i]
  }

  /** And after they have been copied back. */
  function Restored(have: set<Holder>, hs: seq<Holder>, vs: seq<ValueId>): set<Holder>
    requires |hs| == |vs|
  {
    (have - set i | 0 <= i < |vs| :: Forward(vs[i])) + set i | 0 <= i < |hs| && hs[i] in have :: Forward(vs[i])
  }

  function Pairs(hs: seq<Holder>, vs: seq<ValueId>): set<Stand>
    requires |hs| == |vs|
  {
    set i | 0 <= i < |hs| :: Stand(hs[i], vs[i])
  }

  ghost function Collecting(k: Track, t: Places, n: Node): Track
    requires Sized(t, n)
  {
    if t.own + t.ownOuts == [] then k else
      k.(have := Gathered(k.have, t.own + t.ownOuts, Operands(n)),
         current := k.current + Pairs(t.own + t.ownOuts, Operands(n)))
  }

  /** A node that hands on leaves only those holders of its inputs current that it
      has contributed to. */
  function Passed(c: Track, t: Places, n: Node): Track
    requires |t.now| == |n.inputs|
  {
    Track(Restored(c.have + SetOf(t.now), t.now, n.inputs),
          (set s | s in c.current && s.v !in n.inputs) + Pairs(t.now, n.inputs))
  }

  /** A backward order. */
  ghost function Tracked(k: Track, t: Places, n: Node): Track
    requires Sized(t, n)
  {
    var c := Collecting(k, t, n);
    if Active(c.have, t, n) then Passed(c, t, n) else c.(have := Restored(c.have, t.now, n.inputs))
  }

  /** Input `i` is staged as itself, or where its gradient is current, or has no gradient yet. */
  ghost predicate CurrentAt(k: Track, t: Places, n: Node, i: nat)
    requires Sized(t, n) && i < |n.inputs|
  {
    || t.now[i].Forward?
    || Stand(t.now[i], n.inputs[i]) in Collecting(k, t, n).current
    || Forward(n.inputs[i]) !in k.have
  }

  ghost predicate AllCurrent(k: Track, t: Places, n: Node)
    requires Sized(t, n)
  {
    forall i :: 0 <= i < |n.inputs| ==> CurrentAt(k, t, n, i)
  }

  // ---- what the track says of the gradients ----

  ghost predicate StandsFor(redos: seq<Redo>, forward: map<NodeId, Node>, h: Holder, v: ValueId) {
    match h
    case Forward(w) => w == v
    case Placeholder(w) => w == v
    case Copied(k, i) => Denotes(redos, forward, Output(k, i), v)
  }

  ghost predicate Behind(g: Held, k: Track, h: Holder, v: ValueId) {
    && At(g, h) <= At(g, Forward(v))
    && (Stand(h, v) in k.current ==> At(g, h) == At(g, Forward(v)))
    && (!h.Forward? && Stand(h, v) !in k.current && Forward(v) in k.have ==> At(g, h) != At(g, Forward(v)))
  }

  /** The gradient of a holder is that of its value when it is current, and otherwise has less. */
  ghost predicate Tells(redos: seq<Redo>, forward: map<NodeId, Node>, k: Track, g: Held) {
    && k.have == g.Keys
    && (forall h :: h in g ==> g[h] != multiset{})
    && (forall h: Holder, v: ValueId :: StandsFor(redos, forward, h, v) ==> Behind(g, k, h, v))
  }

  lemma BegunTells(redos: seq<Redo>, forward: map<NodeId, Node>, g: Held)
    requires forall h :: h in g ==> h.Forward? && g[h] != multiset{}
    ensures Tells(redos, forward, Track(g.Keys, {}), g)
  {
  }

  /** The holders of a node stand for its operands. */
  ghost predicate Placed(redos: seq<Redo>, forward: map<NodeId, Node>, t: Places, n: Node) {
    && Fit(t, n) && (t.own + t.ownOuts == [] || AllStand(redos, forward, t.own + t.ownOuts, Operands(n)))
    && AllStand(redos, forward, t.now, n.inputs)
  }

  ghost predicate AllStand(redos: seq<Redo>, forward: map<NodeId, Node>, hs: seq<Holder>, vs: seq<ValueId>) {
    |hs| == |vs| && forall i :: 0 <= i < |hs| ==> StandsFor(redos, forward, hs[i], vs[i])
  }

  lemma OneValue(redos: seq<Redo>, forward: map<NodeId, Node>, h: Holder, v: ValueId, w: ValueId)
    requires StandsFor(redos, forward, h, v) && StandsFor(redos, forward, h, w)
    ensures v == w
  {
  }

  lemma GatheredKeys<T>(g: map<Holder, T>, hs: seq<Holder>, vs: seq<ValueId>)
    requires Stands(hs, vs)
    ensures Gathered(g.Keys, hs, vs) == Loaded(g, hs, vs).Keys
  {
    LoadedAt(g, hs, vs);
    var after := Loaded(g, hs, vs);
    forall h ensures h in Gathered(g.Keys, hs, vs) <==> h in after {
      if h in hs {
        var i :| 0 <= i < |hs| && hs[i] == h;
        assert Alike(g, Forward(vs[i]), after, hs[i]);
        forall j | 0 <= j < |hs| && hs[j] == h ensures vs[j] == vs[i] {}
      } else {
        assert Alike(g, h, after, h);
      }
    }
  }

  lemma RestoredKeys<T>(g: map<Holder, T>, hs: seq<Holder>, vs: seq<ValueId>)
    requires Stands(hs, vs) && OneEach(hs, vs)
    ensures Restored(g.Keys, hs, vs) == Returned(g, hs, vs).Keys
  {
    ReturnedAt(g, hs, vs);
    var after := Returned(g, hs, vs);
    forall h ensures h in Restored(g.Keys, hs, vs) <==> h in after {
      if h.Forward? && h.value in vs {
        var i :| 0 <= i < |vs| && vs[i] == h.value;
        assert Alike(g, hs[i], after, Forward(vs[i]));
        forall j | 0 <= j < |vs| && vs[j] == h.value ensures hs[j] == hs[i] {}
      } else if h.Forward? {
        assert Alike(g, Forward(h.value), after, Forward(h.value));
      } else {
        assert Alike(g, h, after, h);
      }
    }
  }

  /** Copying to the node keeps the track right. */
  lemma CollectedTells(redos: seq<Redo>, forward: map<NodeId, Node>, k: Track, g: Held, t: Places, n: Node)
    requires Tells(redos, forward, k, g) && Placed(redos, forward, t, n)
    ensures Tells(redos, forward, Collecting(k, t, n), Collected(g, t, n))
  {
    hide Behind, StandsFor, Stands, OneEach, AllStand;
    if t.own + t.ownOuts != [] {
      CollectedKeys(redos, forward, k, g, t, n);
      forall h: Holder, v: ValueId | StandsFor(redos, forward, h, v)
        ensures Behind(Collected(g, t, n), Collecting(k, t, n), h, v)
      {
        CollectedBehind(redos, forward, k, g, t, n, h, v);
      }
    }
  }

  lemma CollectedKeys(redos: seq<Redo>, forward: map<NodeId, Node>, k: Track, g: Held, t: Places, n: Node)
    requires Tells(redos, forward, k, g) && Placed(redos, forward, t, n) && t.own + t.ownOuts != []
    ensures
      var c, g1 := Collecting(k, t, n), Collected(g, t, n);
      c.have == g1.Keys && forall h :: h in g1 ==> g1[h] != multiset{}
  {
    hide Behind, StandsFor, Loaded, Gathered;
    GatheredKeys(g, t.own + t.ownOuts, Operands(n));
    var hs, vs, g1 := t.own + t.ownOuts, Operands(n), Loaded(g, t.own + t.ownOuts, Operands(n));
    LoadedAt(g, hs, vs);
    forall h | h in g1 ensures g1[h] != multiset{} {
      if h in hs {
        var i :| 0 <= i < |hs| && hs[i] == h;
        assert Alike(g, Forward(vs[i]), g1, hs[i]);
      } else {
        assert Alike(g, h, g1, h);
      }
    }
  }

  lemma CollectedBehind(redos: seq<Redo>, forward: map<NodeId, Node>, k: Track, g: Held, t: Places, n: Node, h: Holder,
                        v: ValueId)
    requires Tells(redos, forward, k, g) && Placed(redos, forward, t, n) && t.own + t.ownOuts != []
    requires StandsFor(redos, forward, h, v)
    ensures Behind(Collected(g, t, n), Collecting(k, t, n), h, v)
  {
    var hs, vs := t.own + t.ownOuts, Operands(n);
    var g1 := Collected(g, t, n);
    CollectedAt(g, t, n);
    LoadedAt(g, hs, vs);
    hide Loaded, Gathered, Collected;
    AlikeAt(g, Forward(v), g1, Forward(v));
    if h in hs {
      var i :| 0 <= i < |hs| && hs[i] == h;
      OneValue(redos, forward, h, v, vs[i]);
      AlikeAt(g, Forward(vs[i]), g1, hs[i]);
      assert Stand(h, v) in Pairs(hs, vs);
    } else {
      assert Alike(g, h, g1, h);
      AlikeAt(g, h, g1, h);
      assert Stand(h, v) !in Pairs(hs, vs);
      assert Behind(g, k, h, v);
    }
  }

  /** An input is in sync exactly when the track says so. */
  lemma SyncIsCurrent(redos: seq<Redo>, forward: map<NodeId, Node>, k: Track, g: Held, t: Places, n: Node, i: nat)
    requires Tells(redos, forward, k, g) && Placed(redos, forward, t, n) && i < |n.inputs|
    ensures InSyncAt(g, t, n, i) <==> CurrentAt(k, t, n, i)
  {
    hide Collected, Collecting, Stands, OneEach;
    var h, v := t.now[i], n.inputs[i];
    var c, g1 := Collecting(k, t, n), Collected(g, t, n);
    CollectedTells(redos, forward, k, g, t, n);
    assert StandsFor(redos, forward, h, v);
    assert Behind(g1, c, h, v);
    CollectedAt(g, t, n);
    AlikeAt(g, Forward(v), g1, Forward(v));
  }

  /** What the order leaves at a holder, where all inputs are in sync. */
  lemma LeftAt(g1: Held, t: Places, n: Node, id: NodeId, h: Holder, v: ValueId, redos: seq<Redo>,
               forward: map<NodeId, Node>)
    requires Fit(t, n) && AllStand(redos, forward, t.now, n.inputs) && StandsFor(redos, forward, h, v)
    requires forall i :: 0 <= i < |n.inputs| ==> At(g1, t.now[i]) == At(g1, Forward(n.inputs[i]))
    ensures
      var g3 := Returned(Handed(g1, t.now, id), t.now, n.inputs);
      var share := Times(id, multiset(n.inputs)[v]);
      && At(g3, Forward(v)) == At(g1, Forward(v)) + share
      && (!h.Forward? && h in t.now ==> At(g3, h) == At(g1, h) + share && At(g1, h) == At(g1, Forward(v)))
      && (!h.Forward? && h !in t.now ==> At(g3, h) == At(g1, h))
  {
    hide Handed, Returned, Times, Stands, OneEach, Alike;
    LeftAtValue(g1, t, n, id, v);
    var g2 := Handed(g1, t.now, id);
    ReturnedAt(g2, t.now, n.inputs);
    if !h.Forward? {
      AlikeAt(g2, h, Returned(g2, t.now, n.inputs), h);
      HandedAt(g1, t.now, id, h);
      if h in t.now {
        var i :| 0 <= i < |t.now| && t.now[i] == h;
        OneValue(redos, forward, h, v, n.inputs[i]);
        CountsAgree(t.now, n.inputs, i);
      } else {
        AlikeAt(g1, h, g2, h);
      }
    }
  }

  lemma LeftAtValue(g1: Held, t: Places, n: Node, id: NodeId, v: ValueId)
    requires Fit(t, n) && forall i :: 0 <= i < |n.inputs| ==> At(g1, t.now[i]) == At(g1, Forward(n.inputs[i]))
    ensures
      At(Returned(Handed(g1, t.now, id), t.now, n.inputs), Forward(v)) == At(g1, Forward(v)) + Times(id,
         multiset(n.inputs)[v])
  {
    hide Handed, Returned, Times, Stands, OneEach, Alike;
    var g2 := Handed(g1, t.now, id);
    ReturnedAt(g2, t.now, n.inputs);
    if v in n.inputs {
      var i :| 0 <= i < |n.inputs| && n.inputs[i] == v;
      AlikeAt(g2, t.now[i], Returned(g2, t.now, n.inputs), Forward(v));
      HandedAt(g1, t.now, id, t.now[i]);
      CountsAgree(t.now, n.inputs, i);
    } else {
      AlikeAt(g2, Forward(v), Returned(g2, t.now, n.inputs), Forward(v));
      NotStaged(t, n, v);
      HandedAt(g1, t.now, id, Forward(v));
      AlikeAt(g1, Forward(v), g2, Forward(v));
      NoTimes(id);
    }
  }

  lemma NoTimes(id: NodeId)
    ensures Times(id, 0) == multiset{}
  {
  }

  lemma SomeTimes<T>(id: NodeId, vs: seq<T>, v: T)
    ensures v in vs ==> Times(id, multiset(vs)[v]) != multiset{}
    ensures v !in vs ==> Times(id, multiset(vs)[v]) == multiset{}
  {
    if v in vs { assert Times(id, multiset(vs)[v])[id] > 0; }
  }

  lemma HandedKeys(g: Held, hs: seq<Holder>, id: NodeId)
    ensures Handed(g, hs, id).Keys == g.Keys + SetOf(hs)
  {
    hide Handed, At, Times;
    forall h ensures h in Handed(g, hs, id) <==> h in g || h in hs {
      HandedAt(g, hs, id, h);
    }
  }

  lemma Less(a: multiset<NodeId>, b: multiset<NodeId>, more: multiset<NodeId>)
    requires a <= b
    ensures a <= b + more && (more != multiset{} ==> a != b + more)
  {
    if more != multiset{} {
      var x :| x in more;
      assert (b + more)[x] > b[x] >= a[x];
    }
  }

  /** All inputs are in sync. */
  ghost predicate Synced(g1: Held, t: Places, n: Node)
    requires |t.now| == |n.inputs|
  {
    forall i :: 0 <= i < |n.inputs| ==> At(g1, t.now[i]) == At(g1, Forward(n.inputs[i]))
  }

  lemma PassedTells(redos: seq<Redo>, forward: map<NodeId, Node>, c: Track, g1: Held, t: Places, n: Node, id: NodeId)
    requires Tells(redos, forward, c, g1) && Fit(t, n) && AllStand(redos, forward, t.now, n.inputs) && Synced(g1, t, n)
    ensures Tells(redos, forward, Passed(c, t, n), Returned(Handed(g1, t.now, id), t.now, n.inputs))
  {
    hide Behind, StandsFor, Stands, OneEach, Handed, Returned, At, Passed;
    PassedKeys(redos, forward, c, g1, t, n, id);
    var g3 := Returned(Handed(g1, t.now, id), t.now, n.inputs);
    forall h: Holder, v: ValueId | StandsFor(redos, forward, h, v) ensures Behind(g3, Passed(c, t, n), h, v) {
      PassedBehind(redos, forward, c, g1, t, n, id, h, v);
    }
  }

  lemma PassedKeys(redos: seq<Redo>, forward: map<NodeId, Node>, c: Track, g1: Held, t: Places, n: Node, id: NodeId)
    requires Tells(redos, forward, c, g1) && Fit(t, n) && Synced(g1, t, n)
    ensures
      var g3 := Returned(Handed(g1, t.now, id), t.now, n.inputs);
      && Passed(c, t, n).have == g3.Keys && forall h :: h in g3 ==> g3[h] != multiset{}
  {
    hide Behind, StandsFor, Stands, OneEach, Handed, Returned, At, Times, Restored;
    HandedKeys(g1, t.now, id);
    RestoredKeys(Handed(g1, t.now, id), t.now, n.inputs);
    HandedNonempty(g1, t.now, id);
    ReturnedNonempty(Handed(g1, t.now, id), t.now, n.inputs);
  }

  lemma HandedNonempty(g: Held, hs: seq<Holder>, id: NodeId)
    requires forall h :: h in g ==> g[h] != multiset{}
    ensures forall h :: h in Handed(g, hs, id) ==> Handed(g, hs, id)[h] != multiset{}
  {
    hide Handed, Times;
    HandedKeys(g, hs, id);
    forall h | h in Handed(g, hs, id) ensures At(Handed(g, hs, id), h) != multiset{} {
      HandedAt(g, hs, id, h);
      SomeTimes(id, hs, h);
    }
  }

  lemma ReturnedNonempty(g: Held, hs: seq<Holder>, vs: seq<ValueId>)
    requires Stands(hs, vs) && OneEach(hs, vs) && forall h :: h in g ==> g[h] != multiset{}
    ensures forall h :: h in Returned(g, hs, vs) ==> Returned(g, hs, vs)[h] != multiset{}
  {
    ReturnedAt(g, hs, vs);
    hide Returned, Stands, OneEach;
    var after := Returned(g, hs, vs);
    forall h | h in after ensures after[h] != multiset{} {
      if h.Forward? && h.value in vs {
        var i :| 0 <= i < |vs| && vs[i] == h.value;
        assert Alike(g, hs[i], after, Forward(vs[i]));
      } else if h.Forward? {
        assert Alike(g, Forward(h.value), after, Forward(h.value));
      } else {
        assert Alike(g, h, after, h);
      }
    }
  }

  lemma OtherHave(c: Track, t: Places, n: Node, v: ValueId)
    requires Fit(t, n) && v !in n.inputs
    ensures Forward(v) in Passed(c, t, n).have <==> Forward(v) in c.have
  {
    hide Stands, OneEach;
    NotStaged(t, n, v);
  }

  lemma PassedBehind(redos: seq<Redo>, forward: map<NodeId, Node>, c: Track, g1: Held, t: Places, n: Node, id: NodeId,
                     h: Holder, v: ValueId)
    requires Tells(redos, forward, c, g1) && Fit(t, n) && AllStand(redos, forward, t.now, n.inputs) && Synced(g1, t, n)
    requires StandsFor(redos, forward, h, v)
    ensures Behind(Returned(Handed(g1, t.now, id), t.now, n.inputs), Passed(c, t, n), h, v)
  {
    hide Handed, Returned, Times, Stands, OneEach, Restored, At;
    LeftAt(g1, t, n, id, h, v, redos, forward);
    SomeTimes(id, n.inputs, v);
    assert Behind(g1, c, h, v);
    if !h.Forward? {
      if h in t.now {
        var i :| 0 <= i < |t.now| && t.now[i] == h;
        OneValue(redos, forward, h, v, n.inputs[i]);
        assert Stand(h, v) in Pairs(t.now, n.inputs);
      } else {
        assert Stand(h, v) !in Pairs(t.now, n.inputs);
        if v !in n.inputs { OtherHave(c, t, n, v); }
        Less(At(g1, h), At(g1, Forward(v)), Times(id, multiset(n.inputs)[v]));
      }
    }
  }

  /** A node that has nothing to hand on changes nothing. */
  lemma IdleTells(redos: seq<Redo>, forward: map<NodeId, Node>, c: Track, g1: Held, t: Places, n: Node)
    requires Tells(redos, forward, c, g1) && Fit(t, n) && Synced(g1, t, n)
    ensures Tells(redos, forward, c.(have := Restored(c.have, t.now, n.inputs)), Returned(g1, t.now, n.inputs))
  {
    hide StandsFor, Stands, OneEach, Returned, Restored, Alike;
    RestoredKeys(g1, t.now, n.inputs);
    var g3, k3 := Returned(g1, t.now, n.inputs), c.(have := Restored(c.have, t.now, n.inputs));
    ReturnedNonempty(g1, t.now, n.inputs);
    forall h: Holder, v: ValueId | StandsFor(redos, forward, h, v) ensures Behind(g3, k3, h, v) {
      assert Behind(g1, c, h, v);
      IdleAt(g1, t, n, v);
      ReturnedAt(g1, t.now, n.inputs);
      if !h.Forward? { AlikeAt(g1, h, g3, h); } else { IdleAt(g1, t, n, h.value); }
    }
  }

  lemma IdleAt(g1: Held, t: Places, n: Node, v: ValueId)
    requires Fit(t, n) && Synced(g1, t, n)
    ensures At(Returned(g1, t.now, n.inputs), Forward(v)) == At(g1, Forward(v))
  {
    hide Stands, OneEach, Returned, Alike;
    ReturnedAt(g1, t.now, n.inputs);
    if v in n.inputs {
      var i :| 0 <= i < |n.inputs| && n.inputs[i] == v;
      AlikeAt(g1, t.now[i], Returned(g1, t.now, n.inputs), Forward(v));
    } else {
      AlikeAt(g1, Forward(v), Returned(g1, t.now, n.inputs), Forward(v));
    }
  }

  /** While all inputs are in sync the track stays right. */
  lemma TrackedTells(redos: seq<Redo>, forward: map<NodeId, Node>, k: Track, g: Held, t: Places, n: Node, id: NodeId)
    requires Tells(redos, forward, k, g) && Placed(redos, forward, t, n) && InSync(g, t, n)
    ensures Tells(redos, forward, Tracked(k, t, n), After(g, t, n, id))
  {
    hide Behind, StandsFor, Stands, OneEach, Handed, Returned, Collected, Collecting, Passed;
    CollectedTells(redos, forward, k, g, t, n);
    NowSynced(g, t, n);
    var c, g1 := Collecting(k, t, n), Collected(g, t, n);
    if Active(g1.Keys, t, n) {
      PassedTells(redos, forward, c, g1, t, n, id);
      TrackedIs(k, t, n);
    } else {
      IdleTells(redos, forward, c, g1, t, n);
    }
  }

  lemma TrackedIs(k: Track, t: Places, n: Node)
    requires Sized(t, n) && Active(Collecting(k, t, n).have, t, n)
    ensures Tracked(k, t, n) == Passed(Collecting(k, t, n), t, n)
  {
  }

  lemma NowSynced(g: Held, t: Places, n: Node)
    requires Fit(t, n) && InSync(g, t, n)
    ensures Synced(Collected(g, t, n), t, n)
  {
    hide Collected, Stands, OneEach;
    CollectedAt(g, t, n);
    forall i | 0 <= i < |n.inputs|
      ensures At(Collected(g, t, n), t.now[i]) == At(Collected(g, t, n), Forward(n.inputs[i]))
    {
      assert InSyncAt(g, t, n, i);
      AlikeAt(g, Forward(n.inputs[i]), Collected(g, t, n), Forward(n.inputs[i]));
    }
  }

  // ---- along a list of orders ----

  lemma HoldersStandFor(redos: seq<Redo>, more: seq<Redo>, forward: map<NodeId, Node>, ss: seq<Source>,
                        vs: seq<ValueId>, kept: bool)
    requires AllDenote(redos, forward, ss, vs) && redos <= more
    ensures AllStand(more, forward, Holders(ss, kept), vs)
  {
    forall i | 0 <= i < |vs| ensures StandsFor(more, forward, Holders(ss, kept)[i], vs[i]) {
      assert Denotes(redos, forward, ss[i], vs[i]);
    }
  }

  lemma CopiesStandFor(redos: seq<Redo>, more: seq<Redo>, forward: map<NodeId, Node>, j: nat)
    requires j < |redos| && redos <= more && redos[j].node in forward
    ensures AllStand(more, forward, CopiesOf(j, |forward[redos[j].node].outputs|), forward[redos[j].node].outputs)
  {
  }

  lemma StandTogether(redos: seq<Redo>, forward: map<NodeId, Node>, hs: seq<Holder>, vs: seq<ValueId>,
                      more: seq<Holder>, ws: seq<ValueId>)
    requires AllStand(redos, forward, hs, vs) && AllStand(redos, forward, more, ws)
    ensures AllStand(redos, forward, hs + more, vs + ws)
  {
    hide StandsFor;
  }

  lemma StagedDenoteNow(p: Progress, forward: map<NodeId, Node>, vs: seq<ValueId>)
    requires Planned(p, forward) && forall i :: 0 <= i < |vs| ==> vs[i] in p.staged
    ensures AllDenote(p.redos, forward, Sources(p.staged, vs), vs)
  {
    hide Denotes;
  }

  lemma PlacesArePlaced(p: Progress, n: NodeId, forward: map<NodeId, Node>, two: bool, redos: seq<Redo>)
    requires May(p, n, forward) && p.redos <= redos
    ensures Placed(redos, forward, PlacesOf(p, n, forward, two), forward[n])
  {
    hide StandsFor, Denotes, Stands, OneEach, AllDenote, AllStand;
    PlacesFit(p, n, forward, two);
    OperandsStaged(p, n, forward);
    var node, kept := forward[n], p.last[n] == Recomputed && two;
    StagedDenoteNow(p, forward, node.inputs);
    HoldersStandFor(p.redos, redos, forward, Sources(p.staged, node.inputs), node.inputs, kept);
    if p.last[n] == Recomputed {
      var j := RedoOf(p.redos, n);
      HoldersStandFor(p.redos, redos, forward, p.redos[j].inputs, node.inputs, kept);
      CopiesStandFor(p.redos, redos, forward, j);
      StandTogether(redos, forward, Holders(p.redos[j].inputs, kept), node.inputs, CopiesOf(j, |node.outputs|),
                    node.outputs);
    }
  }

  /** The track after the orders. */
  ghost function TrackOf(r: Run, orders: seq<Order>): Track
    requires r.Goes(orders)
    decreases |orders|
  {
    if orders == [] then Track(r.g.Keys, {}) else
      r.Before(orders);
      var n := |orders| - 1;
      match orders[n]
      case ComputeBackward(id, _) =>
        PlacesFit(r.Now(orders[..n]), id, r.forward, r.two);
        Tracked(TrackOf(r, orders[..n]), PlacesOf(r.Now(orders[..n]), id, r.forward, r.two), r.forward[id])
      case _ => TrackOf(r, orders[..n])
  }

  /** At each backward order every input is staged as itself, or where its gradient is current, or
      it has no gradient yet. */
  ghost predicate CurrentAlong(r: Run, orders: seq<Order>)
    requires r.Goes(orders)
    decreases |orders|
  {
    if orders == [] then true else
      r.Before(orders);
      var n := |orders| - 1;
      && CurrentAlong(r, orders[..n])
      && match orders[n]
         case ComputeBackward(id, _) =>
           PlacesFit(r.Now(orders[..n]), id, r.forward, r.two);
           AllCurrent(TrackOf(r, orders[..n]), PlacesOf(r.Now(orders[..n]), id, r.forward, r.two), r.forward[id])
         case _ => true
  }

  lemma RedosGrow(r: Run, orders: seq<Order>)
    requires r.Goes(orders) && orders != [] && r.Goes(orders[..|orders| - 1])
    ensures r.Now(orders[..|orders| - 1]).redos <= r.Now(orders).redos
  {
    hide Planned;
  }

  lemma {:induction false} TracksGradients(r: Run, orders: seq<Order>, redos: seq<Redo>)
    requires r.Goes(orders) && r.Now(orders).redos <= redos
    requires forall h :: h in r.g ==> h.Forward? && r.g[h] != multiset{}
    ensures r.InSyncAlong(orders) <==> CurrentAlong(r, orders)
    ensures CurrentAlong(r, orders) ==> Tells(redos, r.forward, TrackOf(r, orders), r.Flow(orders))
    decreases |orders|
  {
    hide r.Goes, r.Now, After, Tracked, InSync, AllCurrent, Tells, May, Planned, PlacesOf, Fit, Placed;
    if orders == [] {
      BegunTells(redos, r.forward, r.g);
    } else {
      r.Before(orders);
      RedosGrow(r, orders);
      TracksGradients(r, orders[..|orders| - 1], redos);
      if orders[|orders| - 1].ComputeBackward? && CurrentAlong(r, orders[..|orders| - 1]) {
        TracksLast(r, orders, redos);
      }
    }
  }

  lemma TracksLast(r: Run, orders: seq<Order>, redos: seq<Redo>)
    requires r.Goes(orders) && orders != [] && orders[|orders| - 1].ComputeBackward? && r.Goes(orders[..|orders| - 1])
    requires r.Now(orders[..|orders| - 1]).redos <= redos
    requires May(r.Now(orders[..|orders| - 1]), orders[|orders| - 1].node, r.forward)
    requires Tells(redos, r.forward, TrackOf(r, orders[..|orders| - 1]), r.Flow(orders[..|orders| - 1]))
    ensures
      var n := |orders| - 1;
      var t, node := PlacesOf(r.Now(orders[..n]), orders[n].node, r.forward, r.two), r.forward[orders[n].node];
      && Fit(t, node) && (InSync(r.Flow(orders[..n]), t, node) <==> AllCurrent(TrackOf(r, orders[..n]), t, node))
      && (InSync(r.Flow(orders[..n]), t, node) ==> Tells(redos, r.forward, TrackOf(r, orders), r.Flow(orders)))
  {
    hide r.Goes, r.Now, After, Tracked, InSyncAt, CurrentAt, Tells, Planned, PlacesOf, Stands, OneEach, Sized, AllStand;
    var n := |orders| - 1;
    var id := orders[n].node;
    var t, node := PlacesOf(r.Now(orders[..n]), id, r.forward, r.two), r.forward[id];
    PlacesFit(r.Now(orders[..n]), id, r.forward, r.two);
    PlacesArePlaced(r.Now(orders[..n]), id, r.forward, r.two, redos);
    var k, g := TrackOf(r, orders[..n]), r.Flow(orders[..n]);
    forall i | 0 <= i < |node.inputs| ensures InSyncAt(g, t, node, i) <==> CurrentAt(k, t, node, i) {
      SyncIsCurrent(redos, r.forward, k, g, t, node, i);
    }
    if InSync(g, t, node) { TrackedTells(redos, r.forward, k, g, t, node, id); }
  }

  /** Gradients are complete after each order exactly when, at each backward order, every input is
      staged as itself, or where its gradient is current, or it has no gradient yet. */
  lemma CompleteExactlyCurrent(r: Run, orders: seq<Order>)
    requires r.Goes(orders) && forall h :: h in r.g ==> h.Forward? && r.g[h] != multiset{}
    ensures r.CompleteAlong(orders) <==> CurrentAlong(r, orders)
  {
    r.CompleteExactlyInSync(orders);
    TracksGradients(r, orders, r.Now(orders).redos);
  }

  lemma NextTrackBackward(r: Run, orders: seq<Order>, id: NodeId, asked: seq<nat>)
    requires r.Goes(orders) && r.Goes(orders + [ComputeBackward(id, asked)])
    requires May(r.Now(orders), id, r.forward) && Fit(PlacesOf(r.Now(orders), id, r.forward, r.two), r.forward[id])
    ensures
      var t, all := PlacesOf(r.Now(orders), id, r.forward, r.two), orders + [ComputeBackward(id, asked)];
      && TrackOf(r, all) == Tracked(TrackOf(r, orders), t, r.forward[id])
      && (CurrentAlong(r, all) <==> CurrentAlong(r, orders) && AllCurrent(TrackOf(r, orders), t, r.forward[id]))
  {
    hide r.Goes, r.Now, Tracked, AllCurrent, PlacesOf, Planned, Stands, OneEach, Sized;
    assert (orders + [ComputeBackward(id, asked)])[..|orders|] == orders;
  }

  // ---- a value that is recomputed before all its uses ----

  function Q4(): Progress { P3().(staged := map[0 := Itself(0), 2 := Itself(2), 3 := Itself(3)]) }

  function Q5(): Progress {
    P3().(staged := map[0 := Itself(0), 1 := Output(0, 0), 2 := Itself(2), 3 := Itself(3)],
          last := map[0 := Recomputed, 1 := Original, 2 := Original], redos := [Redo(0, [Itself(0)])])
  }

  function Q6(): Progress { Q5().(backs := [Back(2, [0])]) }

  lemma Forgets()
    ensures Known(ForgetForward(1), SharedNodes()) && Accepts(P3(), ForgetForward(1), SharedNodes(), false)
    ensures Done(P3(), ForgetForward(1), SharedNodes(), false) == Q4() && !Q4().inBackward
  {
  }

  lemma ComputesAgain()
    ensures Known(ComputeForward(0), SharedNodes()) && Accepts(Q4(), ComputeForward(0), SharedNodes(), false)
    ensures Done(Q4(), ComputeForward(0), SharedNodes(), false) == Q5() && !Q5().inBackward
  {
    hide Restaged, Sources;
    StagedAgain();
    assert Q4().staged == P5().staged && Q5().staged == P6().staged;
    assert 0 in Q4().scheduled && SharedNodes()[0] == Node(Square, [0], [1]);
  }

  lemma BackwardTwo()
    ensures 2 in SharedNodes() && Known(ComputeBackward(2, [0]), SharedNodes())
    ensures Accepts(Q5(), ComputeBackward(2, [0]), SharedNodes(), false)
    ensures Done(Q5(), ComputeBackward(2, [0]), SharedNodes(), false) == Q6() && !Q6().inBackward
  {
  }

  lemma BackwardOne()
    ensures 1 in SharedNodes() && Known(ComputeBackward(1, [0]), SharedNodes())
    ensures Accepts(Q6(), ComputeBackward(1, [0]), SharedNodes(), false)
  {
  }

  lemma PlacesAfterwards()
    requires May(Q5(), 2, SharedNodes()) && May(Q6(), 1, SharedNodes())
    ensures PlacesOf(Q5(), 2, SharedNodes(), false) == Places([], [], [Copied(0, 0)], [Forward(3)])
    ensures PlacesOf(Q6(), 1, SharedNodes(), false) == Places([], [], [Copied(0, 0)], [Forward(2)])
  {
  }

  lemma BothCurrent(k: Track)
    requires k == Track({Forward(2), Forward(3)}, {})
    ensures
      var t, t' := Places([], [], [Copied(0, 0)], [Forward(3)]), Places([], [], [Copied(0, 0)], [Forward(2)]);
      var k' := Tracked(k, t, SharedNodes()[2]);
      AllCurrent(k, t, SharedNodes()[2]) && AllCurrent(k', t', SharedNodes()[1])
  {
    var hs, vs := [Copied(0, 0)], [1];
    assert Stand(hs[0], vs[0]) in Pairs(hs, vs);
  }

  function AgainOrders(): seq<Order> {
    [ComputeForward(0), ComputeForward(1), ComputeForward(2), ForgetForward(1), ComputeForward(0)]
  }

  lemma AgainStaged()
    ensures SharedRun().Goes(AgainOrders()) && SharedRun().Now(AgainOrders()) == Q5()
    ensures TrackOf(SharedRun(), AgainOrders()) == Track({Forward(2), Forward(3)}, {})
    ensures CurrentAlong(SharedRun(), AgainOrders())
  {
    hide *;
    FirstThree();
    Forgets();
    ComputesAgain();
    var three := [ComputeForward(0), ComputeForward(1), ComputeForward(2)];
    Comes(three, ForgetForward(1), P3(), Q4(), 1);
    var four := three + [ForgetForward(1)];
    Comes(four, ComputeForward(0), Q4(), Q5(), 1);
    AgainOrdersAre();
    NoneBackward(SharedRun(), AgainOrders());
    SharedHave();
  }

  lemma AgainOrdersAre()
    ensures [ComputeForward(0), ComputeForward(1), ComputeForward(2)] + [ForgetForward(1)] + [ComputeForward(0)] ==
      AgainOrders()
    ensures forall i :: 0 <= i < |AgainOrders()| ==> !AgainOrders()[i].ComputeBackward?
  {
  }

  lemma SharedHave()
    ensures SharedRun().g.Keys == {Forward(2), Forward(3)}
  {
  }

  /** Without backward orders nothing changes. */
  lemma {:induction false} NoneBackward(r: Run, orders: seq<Order>)
    requires r.Goes(orders) && forall i :: 0 <= i < |orders| ==> !orders[i].ComputeBackward?
    ensures TrackOf(r, orders) == Track(r.g.Keys, {}) && CurrentAlong(r, orders)
    decreases |orders|
  {
    hide r.Goes, r.Now, Tracked, AllCurrent;
    if orders != [] {
      r.Before(orders);
      NoneBackward(r, orders[..|orders| - 1]);
    }
  }

  /** Value 1 is recomputed before both its readers are differentiated: nothing is lost, although
      neither reader was computed from what is staged. */
  lemma RecomputedBeforeBoth()
    ensures
      var r, os := SharedRun(), AgainOrders() + [ComputeBackward(2, [0])] + [ComputeBackward(1, [0])];
      r.Goes(os) && r.CompleteAlong(os)
  {
    hide *;
    var r, one := SharedRun(), AgainOrders() + [ComputeBackward(2, [0])];
    AgainStaged();
    BackwardTwo();
    BackwardOne();
    Backwards(AgainOrders(), 2, Q5());
    DoneIsNow(AgainOrders(), 2, Q5(), Q6());
    Backwards(one, 1, Q6());
    SharedIs();
    NextTrackBackward(r, AgainOrders(), 2, [0]);
    NextTrackBackward(r, one, 1, [0]);
    PlacesAfterwards();
    BothCurrent(TrackOf(r, AgainOrders()));
    CompleteExactlyCurrent(r, one + [ComputeBackward(1, [0])]);
  }

  lemma SharedIs()
    ensures SharedRun().forward == SharedNodes() && !SharedRun().two
    ensures forall h :: h in SharedRun().g ==> h.Forward? && SharedRun().g[h] != multiset{}
  {
  }
}
