/**
  The meaning of a graph. A layer computes its outputs from the values at its input slots;
  memory copies, memory imports and debug layers pass their input on, every other layer computes
  an unknown function of its own. An assignment of values to output slots solves the graph when
  it satisfies every layer's equation. An acyclic graph has exactly one solution: its meaning.
 */
module Evaluation {
  import opened NetGraph

  /** The contents of a tensor, byte by byte. */
  type Value = seq<int>

  /** Sem(l, args, k) is what layer l writes to its k-th output slot. */
  type Sem = (LayerId, seq<Value>, nat) -> Value

  type Assignment = map<OutSlot, Value>

  predicate IsIdentity(kind: LayerType) {
    kind.MemCopy? || kind.MemImport? || kind.Debug?
  }

  /** The value that input slot i receives; an unconnected slot receives nothing. */
  function ArgVal(g: Net, v: Assignment, i: InSlot): Value {
    if i in g.source && g.source[i] in v then v[g.source[i]] else []
  }

  function Args(g: Net, v: Assignment, l: LayerId): (a: seq<Value>)
    requires l in g.info
    ensures |a| == g.info[l].numIn
  {
    seq(g.info[l].numIn, k requires 0 <= k => ArgVal(g, v, InSlot(l, k)))
  }

  /** What layer l puts on its k-th output slot, given the values at its input slots. */
  function LayerOutput(g: Net, f: Sem, l: LayerId, args: seq<Value>, k: nat): Value
    requires l in g.info
  {
    if IsIdentity(g.info[l].kind) && |args| > 0 then args[0] else f(l, args, k)
  }

  ghost predicate SolvesAt(g: Net, f: Sem, v: Assignment, o: OutSlot)
    requires g.IsOut(o)
  {
    o in v && v[o] == LayerOutput(g, f, o.layer, Args(g, v, o.layer), o.index)
  }

  /** v satisfies the equations of the layers in s. */
  ghost predicate SolvesOn(g: Net, f: Sem, v: Assignment, s: set<LayerId>) {
    forall o :: g.IsOut(o) && o.layer in s ==> SolvesAt(g, f, v, o)
  }

  ghost predicate Solves(g: Net, f: Sem, v: Assignment) {
    && (forall o :: o in v <==> g.IsOut(o))
    && SolvesOn(g, f, v, g.info.Keys)
  }

  /** Every edge climbs in rank. */
  ghost predicate Ranked(g: Net, rank: map<LayerId, nat>) {
    && rank.Keys == g.info.Keys
    && forall i :: i in g.source ==> i.layer in rank && g.source[i].layer in rank && rank[g.source[i].layer] < rank[i.layer]
  }

  ghost predicate Acyclic(g: Net) {
    exists rank :: Ranked(g, rank)
  }

  /** The order of the list does not matter here. */
  lemma {:induction false} RelistedIsAcyclic(h: Net, k: Net)
    requires k == h.(layers := k.layers)
    ensures Acyclic(k) <==> Acyclic(h)
  {
    assert forall rank :: Ranked(h, rank) <==> Ranked(k, rank);
  }

  lemma {:induction false} SameArgs(g: Net, v: Assignment, h: Net, w: Assignment, l: LayerId)
    requires l in g.info && l in h.info && g.info[l].numIn == h.info[l].numIn
    requires forall k: nat :: k < g.info[l].numIn ==> ArgVal(g, v, InSlot(l, k)) == ArgVal(h, w, InSlot(l, k))
    ensures Args(g, v, l) == Args(h, w, l)
  {
  }

  /** At most one solution: by induction on rank. */
  lemma {:induction false} SolutionUniqueAt(g: Net, f: Sem, rank: map<LayerId, nat>, v: Assignment, w: Assignment, o: OutSlot)
    requires Ranked(g, rank) && g.Linked()
    requires Solves(g, f, v) && Solves(g, f, w) && g.IsOut(o)
    ensures v[o] == w[o]
    decreases rank[o.layer]
  {
    forall k: nat | k < g.info[o.layer].numIn
      ensures ArgVal(g, v, InSlot(o.layer, k)) == ArgVal(g, w, InSlot(o.layer, k))
    {
      var i := InSlot(o.layer, k);
      if i in g.source {
        assert g.SourceOK(i);
        SolutionUniqueAt(g, f, rank, v, w, g.source[i]);
      }
    }
    SameArgs(g, v, g, w, o.layer);
    assert SolvesAt(g, f, v, o) && SolvesAt(g, f, w, o);
  }

  lemma {:induction false} SolutionUnique(g: Net, f: Sem, v: Assignment, w: Assignment)
    requires Acyclic(g) && g.Linked()
    requires Solves(g, f, v) && Solves(g, f, w)
    ensures v == w
  {
    var rank :| Ranked(g, rank);
    forall o | o in v
      ensures v[o] == w[o]
    {
      SolutionUniqueAt(g, f, rank, v, w, o);
    }
  }

  /** Evaluates the layers in s by recursion along the edges; outside s the values are given by e. */
  ghost function EvalAt(g: Net, f: Sem, rank: map<LayerId, nat>, s: set<LayerId>, e: Assignment, o: OutSlot): Value
    requires Ranked(g, rank) && g.Linked() && g.IsOut(o)
    decreases rank[o.layer], 1
  {
    if o.layer in s then LayerOutput(g, f, o.layer, EvalArgs(g, f, rank, s, e, o.layer), o.index)
    else if o in e then e[o]
    else []
  }

  ghost function EvalArgs(g: Net, f: Sem, rank: map<LayerId, nat>, s: set<LayerId>, e: Assignment, l: LayerId): (a: seq<Value>)
    requires Ranked(g, rank) && g.Linked() && l in g.info
    ensures |a| == g.info[l].numIn
    decreases rank[l], 0
  {
    seq(g.info[l].numIn, k requires 0 <= k < g.info[l].numIn =>
      assert g.SourceOK(InSlot(l, k));
      if InSlot(l, k) in g.source then EvalAt(g, f, rank, s, e, g.source[InSlot(l, k)]) else [])
  }

  function OutSlotsOf(g: Net, l: LayerId): (r: set<OutSlot>)
    requires l in g.info
    ensures forall o :: o in r <==> o.layer == l && g.IsOut(o)
  {
    set k: nat | k < g.info[l].numOut :: OutSlot(l, k)
  }

  ghost function OutSlots(g: Net): (r: set<OutSlot>)
    ensures forall o :: o in r <==> g.IsOut(o)
  {
    assert forall o :: g.IsOut(o) ==> o in OutSlotsOf(g, o.layer);
    set l, o | l in g.info && o in OutSlotsOf(g, l) :: o
  }

  /** For any values e outside s, the equations of the layers in s have a solution. */
  lemma {:induction false} SolutionExistsOn(g: Net, f: Sem, s: set<LayerId>, e: Assignment) returns (v: Assignment)
    requires Acyclic(g) && g.Linked()
    ensures forall o :: o in v <==> g.IsOut(o)
    ensures SolvesOn(g, f, v, s)
    ensures forall o :: g.IsOut(o) && o.layer !in s && o in e ==> v[o] == e[o]
  {
    var rank :| Ranked(g, rank);
    v := map o | o in OutSlots(g) :: EvalAt(g, f, rank, s, e, o);
    forall o | g.IsOut(o) && o.layer in s
      ensures SolvesAt(g, f, v, o)
    {
      var args := EvalArgs(g, f, rank, s, e, o.layer);
      forall k | 0 <= k < |args|
        ensures args[k] == Args(g, v, o.layer)[k]
      {
        assert g.SourceOK(InSlot(o.layer, k));
      }
      assert args == Args(g, v, o.layer);
    }
  }

  lemma {:induction false} SolutionExists(g: Net, f: Sem)
    requires Acyclic(g) && g.Linked()
    ensures exists v :: Solves(g, f, v)
  {
    var v := SolutionExistsOn(g, f, g.info.Keys, map[]);
    assert Solves(g, f, v);
  }

  /** The meaning of an acyclic graph: its one solution. */
  ghost function Meaning(g: Net, f: Sem): (v: Assignment)
    requires Acyclic(g) && g.Linked()
    ensures Solves(g, f, v)
  {
    SolutionExists(g, f);
    var v :| Solves(g, f, v);
    v
  }

  lemma {:induction false} MeaningUnique(g: Net, f: Sem, v: Assignment)
    requires Acyclic(g) && g.Linked() && Solves(g, f, v)
    ensures v == Meaning(g, f)
  {
    SolutionUnique(g, f, v, Meaning(g, f));
  }

  /** The value that reaches layer l at its first input slot; for an Output layer, what the network returns. */
  ghost function Reaching(g: Net, f: Sem, l: LayerId): Value
    requires Acyclic(g) && g.Linked()
  {
    ArgVal(g, Meaning(g, f), InSlot(l, 0))
  }
}
