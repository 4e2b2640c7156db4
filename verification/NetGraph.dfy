/**
  The network graph as a value: layers, their slots, and the edges between slots.
  An edge is stored twice, as a back pointer on the input slot and as an entry of the ordered
  connection list of the output slot; the edge strategies form a list parallel to the connections.
 */
module NetGraph {
  import opened Sequences

  type LayerId = nat

  datatype LayerType = Input | Output | Constant | MemCopy | MemImport | Debug | ConvertUp | ConvertDown | Operator(op: nat)

  datatype EdgeStrategy = Undefined | DirectCompatibility | ExportToTarget | CopyToTarget

  /** Shape and data type; only its identity matters here. */
  type TensorInfo = seq<nat>

  datatype InSlot = InSlot(layer: LayerId, index: nat)

  datatype OutSlot = OutSlot(layer: LayerId, index: nat)

  datatype LayerInfo = LayerInfo(kind: LayerType, numIn: nat, numOut: nat, bindingId: int, backend: string)
  {
    /** The slot counts fixed by the constructors of the special layers. */
    predicate WellShaped() {
      && (kind.Input? ==> numIn == 0 && numOut == 1)
      && (kind.Output? ==> numIn == 1 && numOut == 0)
      && (kind.Constant? ==> numIn == 0 && numOut == 1)
      && (kind.MemCopy? || kind.MemImport? || kind.Debug? || kind.ConvertUp? || kind.ConvertDown? ==> numIn == 1 && numOut == 1)
    }

    /** Inputs come first in the layer list, Outputs last. */
    function Rank(): (r: nat)
      ensures r <= 2
    {
      if kind.Input? then 0 else if kind.Output? then 2 else 1
    }
  }

  datatype Net = Net(
    layers: seq<LayerId>,
    info: map<LayerId, LayerInfo>,
    source: map<InSlot, OutSlot>,
    sinks: map<OutSlot, seq<InSlot>>,
    strategies: map<OutSlot, seq<EdgeStrategy>>,
    overridden: map<InSlot, TensorInfo>)
  {
    predicate IsIn(i: InSlot) {
      i.layer in info && i.index < info[i.layer].numIn
    }

    predicate IsOut(o: OutSlot) {
      o.layer in info && o.index < info[o.layer].numOut
    }

    function Sinks(o: OutSlot): seq<InSlot> {
      if o in sinks then sinks[o] else []
    }

    function Strategies(o: OutSlot): seq<EdgeStrategy> {
      if o in strategies then strategies[o] else []
    }

    /** The list of layers names every layer once, and every layer has the shape of its type. */
    ghost predicate Listed() {
      && NoDup(layers)
      && (forall l :: l in layers <==> l in info)
      && (forall l :: l in info ==> info[l].WellShaped())
      && (forall i :: i in overridden ==> IsIn(i))
    }

    /** An edge seen from its input slot. */
    ghost predicate SourceOK(i: InSlot) {
      i in source ==> IsIn(i) && IsOut(source[i]) && i in Sinks(source[i])
    }

    /** The edges of output slot o: an input slot points to o exactly when it occurs, once, in the
        connection list of o; connections and strategies have equal length. */
    ghost predicate SinksOK(o: OutSlot) {
      && |Strategies(o)| == |Sinks(o)|
      && NoDup(Sinks(o))
      && (forall i :: i in Sinks(o) ==> i in source && source[i] == o)
    }

    /** The slot invariant. */
    ghost predicate Linked() {
      && (forall i :: SourceOK(i))
      && (forall o :: SinksOK(o))
    }

    ghost predicate Valid() {
      Listed() && Linked()
    }

    /** The strategy recorded for the edge that ends in input slot i. */
    ghost function StrategyOf(i: InSlot): EdgeStrategy {
      if i !in source then Undefined
      else
        var k := IndexOf(Sinks(source[i]), i);
        if k < |Strategies(source[i])| then Strategies(source[i])[k] else Undefined
    }

    /** Records that output slot o feeds input slot i. */
    function Link(o: OutSlot, i: InSlot): Net {
      this.(source := source[i := o],
            sinks := sinks[o := Sinks(o) + [i]],
            strategies := strategies[o := Strategies(o) + [Undefined]])
    }

    /** Forgets the edge from o to i, if there is one. */
    ghost function Unlink(o: OutSlot, i: InSlot): Net {
      var k := IndexOf(Sinks(o), i);
      if k < |Sinks(o)| && k < |Strategies(o)| then
        this.(source := source - {i},
              sinks := sinks[o := RemoveAt(Sinks(o), k)],
              strategies := strategies[o := RemoveAt(Strategies(o), k)])
      else
        this.(source := source - {i})
    }

    function WithStrategy(o: OutSlot, k: nat, s: EdgeStrategy): Net
      requires k < |Strategies(o)|
    {
      this.(strategies := strategies[o := Strategies(o)[k := s]])
    }
  }

  /** Only edges differ between g and h. */
  ghost predicate SameLayers(g: Net, h: Net) {
    h.layers == g.layers && h.info == g.info && h.overridden == g.overridden
  }

  lemma {:induction false} SinksOwned(g: Net, o: OutSlot)
    requires g.Linked() && g.Sinks(o) != []
    ensures g.IsOut(o)
  {
    assert g.SinksOK(o) && g.Sinks(o)[0] in g.Sinks(o);
    assert g.SourceOK(g.Sinks(o)[0]);
  }

  /** h has the edges of g, with the same strategies, except perhaps the one into input slot i. */
  ghost predicate SameEdgesBut(g: Net, h: Net, i: InSlot) {
    forall j :: j in g.source && j != i ==> j in h.source && h.source[j] == g.source[j] && h.StrategyOf(j) == g.StrategyOf(j)
  }

  lemma {:induction false} LinkKeepsLinked(g: Net, o: OutSlot, i: InSlot)
    requires g.Linked() && g.IsIn(i) && g.IsOut(o) && i !in g.source
    ensures g.Link(o, i).Linked()
  {
    var h := g.Link(o, i);
    assert g.SinksOK(o);
    AppendMembers(g.Sinks(o), i);
    forall p
      ensures h.SinksOK(p)
    {
      assert g.SinksOK(p);
    }
    forall j
      ensures h.SourceOK(j)
    {
      assert g.SourceOK(j);
    }
  }

  lemma {:induction false} LinkStrategy(g: Net, o: OutSlot, i: InSlot, j: InSlot)
    requires g.Linked() && i !in g.source && (j in g.source || j == i)
    ensures g.Link(o, i).StrategyOf(j) == if j == i then Undefined else g.StrategyOf(j)
  {
    assert g.SinksOK(o);
    AppendMembers(g.Sinks(o), i);
    if j != i {
      assert g.SourceOK(j) && g.SinksOK(g.source[j]);
    }
  }

  lemma {:induction false} LinkKeeps(g: Net, o: OutSlot, i: InSlot)
    requires g.Linked() && g.IsIn(i) && g.IsOut(o) && i !in g.source
    ensures g.Link(o, i).Linked()
    ensures g.Link(o, i).StrategyOf(i) == Undefined
    ensures SameEdgesBut(g, g.Link(o, i), i)
  {
    LinkKeepsLinked(g, o, i);
    LinkStrategy(g, o, i, i);
    forall j | j in g.source && j != i
      ensures g.Link(o, i).StrategyOf(j) == g.StrategyOf(j)
    {
      LinkStrategy(g, o, i, j);
    }
  }

  lemma {:induction false} SameEdgesButTransitive(g: Net, h: Net, k: Net, i: InSlot)
    requires SameEdgesBut(g, h, i) && SameEdgesBut(h, k, i)
    ensures SameEdgesBut(g, k, i)
  {
  }

  lemma {:induction false} UnlinkKeepsLinked(g: Net, o: OutSlot, i: InSlot)
    requires g.Linked() && i in g.source && g.source[i] == o
    ensures g.SourceOK(i) && g.SinksOK(o)
    ensures g.Unlink(o, i).Linked()
  {
    assert g.SourceOK(i) && g.SinksOK(o);
    var h := g.Unlink(o, i);
    RemoveAtMembers(g.Sinks(o), IndexOf(g.Sinks(o), i));
    forall p
      ensures h.SinksOK(p)
    {
      assert g.SinksOK(p);
    }
    forall j
      ensures h.SourceOK(j)
    {
      assert g.SourceOK(j);
    }
  }

  lemma {:induction false} UnlinkStrategySame(g: Net, o: OutSlot, i: InSlot, j: InSlot)
    requires g.SinksOK(o) && i in g.Sinks(o) && j in g.Sinks(o) && g.source[j] == o && j != i
    ensures g.Unlink(o, i).StrategyOf(j) == g.StrategyOf(j)
  {
    var k, h := IndexOf(g.Sinks(o), i), g.Unlink(o, i);
    assert h.Sinks(o) == RemoveAt(g.Sinks(o), k) && h.Strategies(o) == RemoveAt(g.Strategies(o), k);
    RemoveAtIndex(g.Sinks(o), k, j);
  }

  lemma {:induction false} UnlinkStrategyOther(g: Net, o: OutSlot, i: InSlot, j: InSlot)
    requires j in g.source && g.source[j] != o && j != i
    ensures g.Unlink(o, i).StrategyOf(j) == g.StrategyOf(j)
  {
    var h, p := g.Unlink(o, i), g.source[j];
    assert h.source[j] == p && h.Sinks(p) == g.Sinks(p) && h.Strategies(p) == g.Strategies(p);
  }

  lemma {:induction false} UnlinkStrategy(g: Net, o: OutSlot, i: InSlot, j: InSlot)
    requires g.Linked() && i in g.source && g.source[i] == o && j in g.source && j != i
    ensures g.Unlink(o, i).StrategyOf(j) == g.StrategyOf(j)
  {
    assert g.SourceOK(i) && g.SinksOK(o) && g.SourceOK(j);
    if g.source[j] == o {
      UnlinkStrategySame(g, o, i, j);
    } else {
      UnlinkStrategyOther(g, o, i, j);
    }
  }

  lemma {:induction false} UnlinkKeeps(g: Net, o: OutSlot, i: InSlot)
    requires g.Linked() && i in g.source && g.source[i] == o
    ensures g.SourceOK(i) && g.SinksOK(o)
    ensures g.Unlink(o, i).Linked()
    ensures g.Unlink(o, i).source == g.source - {i}
    ensures SameEdgesBut(g, g.Unlink(o, i), i)
  {
    UnlinkKeepsLinked(g, o, i);
    forall j | j in g.source && j != i
      ensures g.Unlink(o, i).StrategyOf(j) == g.StrategyOf(j)
    {
      UnlinkStrategy(g, o, i, j);
    }
  }

  lemma {:induction false} WithStrategyKeeps(g: Net, o: OutSlot, k: nat, s: EdgeStrategy)
    requires g.Linked() && k < |g.Sinks(o)| && k < |g.Strategies(o)|
    ensures g.WithStrategy(o, k, s).Linked()
    ensures g.Sinks(o)[k] in g.source && g.source[g.Sinks(o)[k]] == o
    ensures g.WithStrategy(o, k, s).StrategyOf(g.Sinks(o)[k]) == s
    ensures SameEdgesBut(g, g.WithStrategy(o, k, s), g.Sinks(o)[k])
  {
    var h := g.WithStrategy(o, k, s);
    var i := g.Sinks(o)[k];
    assert g.SinksOK(o) && i in g.Sinks(o);
    IndexOfUnique(g.Sinks(o), k);
    forall p
      ensures h.SinksOK(p)
    {
      assert g.SinksOK(p);
    }
    forall j
      ensures h.SourceOK(j)
    {
      assert g.SourceOK(j);
    }
    assert h.SourceOK(i) && h.SinksOK(o);
    forall j | j in g.source && j != i
      ensures h.StrategyOf(j) == g.StrategyOf(j)
    {
      WithStrategyOther(g, o, k, s, j);
    }
  }

  lemma {:induction false} WithStrategyOther(g: Net, o: OutSlot, k: nat, s: EdgeStrategy, j: InSlot)
    requires g.Linked() && k < |g.Sinks(o)| && k < |g.Strategies(o)| && j in g.source && j != g.Sinks(o)[k]
    ensures g.WithStrategy(o, k, s).StrategyOf(j) == g.StrategyOf(j)
  {
    assert g.SinksOK(o);
    IndexOfUnique(g.Sinks(o), k);
    assert g.SourceOK(j) && g.SinksOK(g.source[j]);
  }

  /** No edge out of o has a strategy yet. */
  ghost predicate Unassigned(g: Net, o: OutSlot) {
    forall s :: s in g.Strategies(o) ==> s == Undefined
  }

  lemma {:induction false} UnassignedReader(g: Net, o: OutSlot, i: InSlot)
    requires g.Linked() && Unassigned(g, o) && i in g.source && g.source[i] == o
    ensures g.StrategyOf(i) == Undefined
  {
    assert g.SourceOK(i) && g.SinksOK(o);
    assert g.Strategies(o)[IndexOf(g.Sinks(o), i)] in g.Strategies(o);
  }

  lemma {:induction false} UnassignedByReaders(g: Net, o: OutSlot)
    requires g.Linked() && forall i :: i in g.source && g.source[i] == o ==> g.StrategyOf(i) == Undefined
    ensures Unassigned(g, o)
  {
    assert g.SinksOK(o);
    forall s | s in g.Strategies(o)
      ensures s == Undefined
    {
      var k := IndexOf(g.Strategies(o), s);
      assert g.Sinks(o)[k] in g.Sinks(o);
      IndexOfUnique(g.Sinks(o), k);
    }
  }
}
