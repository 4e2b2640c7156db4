/**
  What replacing a subgraph does to the order of the layer list when the list is not sorted again:
  every layer of the substitute was in the list already, and the flag says that the list is in order.
 */
module SubstitutionOrder {
  import opened Sequences
  import opened NetGraph
  import opened Evaluation
  import opened Ordering
  import opened Substitution

  /** The slot that feeds the k-th new input slot afterwards. */
  ghost function Feeder(g: Net, view: View, sub: View, k: nat): OutSlot
    requires Compatible(view, sub) && k < |view.inputs| && view.inputs[k] in g.source
  {
    Target(view.outputs, sub.outputs, |sub.outputs|, g.source[view.inputs[k]])
  }

  /** The k-th new input slot will be fed by a layer that stays. */
  ghost predicate Fed(g: Net, view: View, sub: View, k: nat)
    requires Compatible(view, sub) && k < |view.inputs|
  {
    view.inputs[k] in g.source && sub.inputs[k].layer !in view.layers && Feeder(g, view, sub, k).layer !in view.layers
  }

  /** What will feed a new input slot stands before it already. */
  ghost predicate InputsAfter(g: Net, view: View, sub: View)
    requires Compatible(view, sub)
  {
    forall k :: 0 <= k < |view.inputs| && Fed(g, view, sub, k) ==> Pos(g, Feeder(g, view, sub, k).layer) < Pos(g, sub.inputs[k].layer)
  }

  /** Each new output slot stands before the remaining readers of the old one already. */
  ghost predicate OutputsBefore(g: Net, view: View, sub: View)
    requires Compatible(view, sub)
  {
    forall i :: i in g.source && i !in view.inputs && i.layer !in view.layers && g.source[i] in view.outputs ==>
      var o := sub.outputs[IndexOf(view.outputs, g.source[i])];
      o.layer !in view.layers ==> Pos(g, o.layer) < Pos(g, i.layer)
  }

  lemma {:induction false} OrderOfRest(s: seq<LayerId>, gone: set<LayerId>, x: LayerId, y: LayerId)
    requires NoDup(s) && x in Without(s, gone) && y in Without(s, gone)
    ensures x in s && y in s
    ensures IndexOf(Without(s, gone), x) < IndexOf(Without(s, gone), y) <==> IndexOf(s, x) < IndexOf(s, y)
  {
    var t := Without(s, gone);
    var j, k := IndexOf(t, x), IndexOf(t, y);
    WithoutMembers(s, gone);
    WithoutSubsequence(s, gone);
    if j < k {
      SubsequenceKeepsOrder(t, s, j, k);
    } else if k < j {
      SubsequenceKeepsOrder(t, s, k, j);
    }
  }

  lemma {:induction false} PartitionOfRest(g: Net, h: Net, gone: set<LayerId>)
    requires g.Listed() && h.Listed() && Partitioned(g) && h.layers == Without(g.layers, gone)
    requires forall l :: l in h.info ==> l in g.info && h.info[l] == g.info[l]
    ensures Partitioned(h)
  {
    WithoutSubsequence(g.layers, gone);
    forall j, k | 0 <= j < k < |h.layers|
      ensures Ranks(h)[j] <= Ranks(h)[k]
    {
      var x, y := h.layers[j], h.layers[k];
      SubsequenceKeepsOrder(h.layers, g.layers, j, k);
      assert x in h.layers && y in h.layers;
      assert Ranks(g)[IndexOf(g.layers, x)] <= Ranks(g)[IndexOf(g.layers, y)];
    }
  }

  /** Edges of the new graph run forward exactly if their ends were in that order before. */
  lemma {:induction false} EdgeForward(g: Net, h: Net, view: View, i: InSlot)
    requires g.Valid() && h.Valid() && h.layers == Without(g.layers, Elems(view.layers)) && i in h.source
    ensures Pos(h, h.source[i].layer) < Pos(h, i.layer) <==> Pos(g, h.source[i].layer) < Pos(g, i.layer)
  {
    assert h.SourceOK(i);
    OrderOfRest(g.layers, Elems(view.layers), h.source[i].layer, i.layer);
  }

  /** The edges into the substitute. */
  lemma {:induction false} InputEdge(g: Net, h: Net, view: View, sub: View, k: nat)
    requires Fits(g, view, sub) && Substituted(g, h, view, sub) && k < |sub.inputs| && Fed(g, view, sub, k)
    ensures sub.inputs[k] in h.source && h.source[sub.inputs[k]] == Feeder(g, view, sub, k)
  {
    IndexOfUnique(sub.inputs, k);
    assert sub.inputs[k] in sub.inputs;
    assert Rewired(g, h, view, sub, sub.inputs[k]);
  }

  /** The edges out of the substitute that were edges of the old subgraph. */
  lemma {:induction false} OutputEdge(g: Net, h: Net, view: View, sub: View, i: InSlot)
    requires Fits(g, view, sub) && Free(g, view.inputs, sub.inputs, |sub.inputs|) && Substituted(g, h, view, sub)
    requires i in g.source && i !in view.inputs && i.layer !in view.layers && g.source[i] in view.outputs
    requires sub.outputs[IndexOf(view.outputs, g.source[i])].layer !in view.layers
    ensures i in h.source && h.source[i] == sub.outputs[IndexOf(view.outputs, g.source[i])]
  {
    assert i in sub.inputs ==> i == sub.inputs[IndexOf(sub.inputs, i)];
    assert Rewired(g, h, view, sub, i);
  }

  /** An edge of the new graph runs forward in the old list. */
  lemma {:induction false} NewEdgeForward(g: Net, h: Net, view: View, sub: View, i: InSlot)
    requires g.Valid() && Forward(g) && Fits(g, view, sub) && Free(g, view.inputs, sub.inputs, |sub.inputs|)
    requires Substituted(g, h, view, sub) && InputsAfter(g, view, sub) && OutputsBefore(g, view, sub) && i in h.source
    ensures Pos(g, h.source[i].layer) < Pos(g, i.layer)
  {
    assert Rewired(g, h, view, sub, i);
    if i in sub.inputs && view.inputs[IndexOf(sub.inputs, i)] in g.source {
      var k := IndexOf(sub.inputs, i);
      assert h.source[i] == Feeder(g, view, sub, k);
    } else {
      assert i in g.source && i !in view.inputs;
    }
  }

  /** From a sorted list, the list without the old layers is sorted if and only if the layers of the
      substitute already stood behind what will feed them and before what will read them. */
  lemma {:induction false} SubstitutionKeepsOrderExactly(g: Net, h: Net, view: View, sub: View)
    requires g.Valid() && h.Valid() && Sorted(g) && Fits(g, view, sub) && Free(g, view.inputs, sub.inputs, |sub.inputs|)
    requires Substituted(g, h, view, sub) && h.layers == Without(g.layers, Elems(view.layers))
    ensures Sorted(h) <==> InputsAfter(g, view, sub) && OutputsBefore(g, view, sub)
  {
    PartitionOfRest(g, h, Elems(view.layers));
    if InputsAfter(g, view, sub) && OutputsBefore(g, view, sub) {
      forall i | i in h.source
        ensures Pos(h, h.source[i].layer) < Pos(h, i.layer)
      {
        NewEdgeForward(g, h, view, sub, i);
        EdgeForward(g, h, view, i);
      }
    }
    if Forward(h) {
      StoodInOrder(g, h, view, sub);
    }
  }

  lemma {:induction false} Disordered(g: Net, h: Net, view: View, sub: View)
    requires g.Valid() && h.Valid() && Sorted(g) && Fits(g, view, sub) && Free(g, view.inputs, sub.inputs, |sub.inputs|)
    requires Substituted(g, h, view, sub) && h.layers == Without(g.layers, Elems(view.layers)) && !InputsAfter(g, view, sub)
    ensures !Sorted(h)
  {
    SubstitutionKeepsOrderExactly(g, h, view, sub);
  }

  lemma {:induction false} StoodInOrder(g: Net, h: Net, view: View, sub: View)
    requires g.Valid() && h.Valid() && Forward(h) && Fits(g, view, sub) && Free(g, view.inputs, sub.inputs, |sub.inputs|)
    requires Substituted(g, h, view, sub) && h.layers == Without(g.layers, Elems(view.layers))
    ensures InputsAfter(g, view, sub) && OutputsBefore(g, view, sub)
  {
    forall k | 0 <= k < |view.inputs| && Fed(g, view, sub, k)
      ensures Pos(g, Feeder(g, view, sub, k).layer) < Pos(g, sub.inputs[k].layer)
    {
      InputEdge(g, h, view, sub, k);
      EdgeForward(g, h, view, sub.inputs[k]);
    }
    forall i | i in g.source && i !in view.inputs && i.layer !in view.layers && g.source[i] in view.outputs
      && sub.outputs[IndexOf(view.outputs, g.source[i])].layer !in view.layers
      ensures Pos(g, sub.outputs[IndexOf(view.outputs, g.source[i])].layer) < Pos(g, i.layer)
    {
      OutputEdge(g, h, view, sub, i);
      EdgeForward(g, h, view, i);
    }
  }

  /** For a view of the whole boundary and a substitute that is not connected yet: what feeds the old
      input slots stands before the new ones, and the new output slots before the readers of the old. */
  lemma {:induction false} LooseSubstituteKeepsOrderExactly(g: Net, h: Net, view: View, sub: View)
    requires g.Valid() && h.Valid() && Sorted(g) && Replaceable(g, h, view, sub) && h.layers == Without(g.layers, Elems(view.layers))
    ensures Sorted(h) <==>
      && (forall k :: 0 <= k < |view.inputs| && view.inputs[k] in g.source ==> Pos(g, g.source[view.inputs[k]].layer) < Pos(g, sub.inputs[k].layer))
      && (forall i :: i in g.source && i.layer !in view.layers && g.source[i] in view.outputs ==>
            Pos(g, sub.outputs[IndexOf(view.outputs, g.source[i])].layer) < Pos(g, i.layer))
  {
    assert Free(g, view.inputs, sub.inputs, |sub.inputs|) by {
      assert forall k :: 0 <= k < |sub.inputs| ==> sub.inputs[k] in sub.inputs;
    }
    SubstitutionKeepsOrderExactly(g, h, view, sub);
    forall k | 0 <= k < |view.inputs| && view.inputs[k] in g.source
      ensures Fed(g, view, sub, k) && Feeder(g, view, sub, k) == g.source[view.inputs[k]]
    {
      assert view.inputs[k] in view.inputs && sub.inputs[k] in sub.inputs;
    }
    forall i | i in g.source && i.layer !in view.layers && g.source[i] in view.outputs
      ensures i !in view.inputs && sub.outputs[IndexOf(view.outputs, g.source[i])].layer !in view.layers
    {
      assert sub.outputs[IndexOf(view.outputs, g.source[i])] in sub.outputs;
    }
  }

  /** A graph in order: layer 0 is not connected yet, the Constant 1 feeds the layer 2,
      which feeds the Output 3. */
  function Unconnected(): (g: Net) {
    Net([0, 1, 2, 3],
        map[0 := LayerInfo(Operator(0), 1, 1, 0, ""), 1 := LayerInfo(Constant, 0, 1, 0, ""),
            2 := LayerInfo(Operator(0), 1, 1, 0, ""), 3 := LayerInfo(Output, 1, 0, 0, "")],
        map[InSlot(2, 0) := OutSlot(1, 0), InSlot(3, 0) := OutSlot(2, 0)],
        map[OutSlot(1, 0) := [InSlot(2, 0)], OutSlot(2, 0) := [InSlot(3, 0)]],
        map[OutSlot(1, 0) := [Undefined], OutSlot(2, 0) := [Undefined]],
        map[])
  }

  function Nothing(): Net {
    Net([], map[], map[], map[], map[], map[])
  }

  function Single(l: LayerId): View {
    View([l], [InSlot(l, 0)], [OutSlot(l, 0)])
  }

  lemma {:induction false} UnconnectedIsListed()
    ensures Unconnected().Listed()
    ensures forall k: nat :: k < 4 ==> Pos(Unconnected(), k) == k
  {
    FromZero(Unconnected().layers);
    UnconnectedIsShaped();
  }

  lemma {:induction false} UnconnectedIsShaped()
    ensures forall l :: l in Unconnected().info ==> Unconnected().info[l].WellShaped()
  {
    forall l | l in Unconnected().info
      ensures Unconnected().info[l].WellShaped()
    {
      assert l == 0 || l == 1 || l == 2 || l == 3;
    }
  }

  lemma {:induction false} UnconnectedIsLinked()
    ensures Unconnected().Linked()
  {
    var g := Unconnected();
    forall i
      ensures g.SourceOK(i)
    {
      assert i in g.source ==> i == InSlot(2, 0) || i == InSlot(3, 0);
    }
    forall o
      ensures g.SinksOK(o)
    {
      NoDupIntro(g.Sinks(o));
    }
  }

  lemma {:induction false} UnconnectedIsSorted()
    ensures Unconnected().Valid() && Sorted(Unconnected())
  {
    var g := Unconnected();
    UnconnectedIsListed();
    UnconnectedIsLinked();
    UnconnectedIsPartitioned();
    UnconnectedIsForward();
  }

  lemma {:induction false} UnconnectedIsPartitioned()
    ensures Partitioned(Unconnected())
  {
    assert Ranks(Unconnected()) == [1, 1, 1, 2];
  }

  lemma {:induction false} UnconnectedIsForward()
    ensures Forward(Unconnected())
  {
    var g := Unconnected();
    UnconnectedIsListed();
    forall i | i in g.source
      ensures Pos(g, g.source[i].layer) < Pos(g, i.layer)
    {
      assert i == InSlot(2, 0) || i == InSlot(3, 0);
    }
  }

  /** Replacing layer 2 by layer 0 meets what is asked of the caller ... */
  lemma {:induction false} LateSuits()
    ensures Donates(Unconnected(), Nothing()) && DonorSlotsOnly(Nothing()) && Suits(Unconnected(), Nothing(), Single(2), Single(0))
    ensures Free(Unconnected(), Single(2).inputs, Single(0).inputs, 1)
  {
    SinglesFit(Unconnected(), Single(2), Single(0));
    forall a | Adopted(Unconnected(), Nothing(), a)
      ensures Fits(a, Single(2), Single(0)) && Unassigned(a, OutSlot(2, 0))
    {
      assert a.info == Unconnected().info && a.source == Unconnected().source && a.strategies == Unconnected().strategies;
      SinglesFit(a, Single(2), Single(0));
    }
  }

  lemma {:induction false} SinglesFit(a: Net, view: View, sub: View)
    requires a.info == Unconnected().info && a.source == Unconnected().source && view == Single(2) && sub == Single(0)
    ensures Fits(a, view, sub) && Free(a, view.inputs, sub.inputs, |sub.inputs|)
  {
    NoDupIntro([InSlot(2, 0)]);
    NoDupIntro([InSlot(0, 0)]);
    NoDupIntro([OutSlot(2, 0)]);
    NoDupIntro([OutSlot(0, 0)]);
    NoDupIntro([2]);
  }

  /** ... but leaves the list out of order: 0 comes first and reads 1. */
  lemma {:induction false} SubstitutionBreaksOrder(g: Net, h: Net, view: View, sub: View)
    requires g == Unconnected() && view == Single(2) && sub == Single(0)
    requires h.Valid() && Substituted(g, h, view, sub) && h.layers == Without(g.layers, Elems(view.layers))
    ensures !Sorted(h) && Acyclic(h)
  {
    LateReads(h);
    SinglesFit(g, view, sub);
    UnconnectedIsSorted();
    NotAfter();
    Disordered(g, h, view, sub);
  }

  /** Layer 0 stands before what will feed it. */
  lemma {:induction false} NotAfter()
    ensures !InputsAfter(Unconnected(), Single(2), Single(0))
  {
    var g, view, sub := Unconnected(), Single(2), Single(0);
    assert view.inputs[0] == InSlot(2, 0) && g.source[InSlot(2, 0)] == OutSlot(1, 0);
    assert Target(view.outputs, sub.outputs, 1, OutSlot(1, 0)) == OutSlot(1, 0);
    assert Feeder(g, view, sub, 0) == OutSlot(1, 0) && Fed(g, view, sub, 0);
    NoDupIntro(g.layers);
    IndexOfUnique(g.layers, 0);
    IndexOfUnique(g.layers, 1);
    assert g.layers[0] == 0 && g.layers[1] == 1;
    assert Pos(g, sub.inputs[0].layer) == 0;
  }

  /** The edges of the result. */
  lemma {:induction false} LateReads(h: Net)
    requires Substituted(Unconnected(), h, Single(2), Single(0))
    ensures Acyclic(h)
  {
    var rank: map<LayerId, nat> := map[1 := 0, 0 := 1, 3 := 2];
    forall i | i in h.source
      ensures i.layer in rank && h.source[i].layer in rank && rank[h.source[i].layer] < rank[i.layer]
    {
      LateEdge(h, i);
    }
    assert Ranked(h, rank);
  }

  lemma {:induction false} LateEdge(h: Net, i: InSlot)
    requires Substituted(Unconnected(), h, Single(2), Single(0)) && i in h.source
    ensures (i.layer == 0 && h.source[i].layer == 1) || (i.layer == 3 && h.source[i].layer == 0)
  {
    var g, view, sub := Unconnected(), Single(2), Single(0);
    assert Rewired(g, h, view, sub, i);
    assert view.inputs[0] == InSlot(2, 0) && g.source[InSlot(2, 0)] == OutSlot(1, 0);
    if i == InSlot(0, 0) {
      assert IndexOf(sub.inputs, i) == 0;
    } else {
      assert i in g.source && i == InSlot(3, 0) && g.source[i] == OutSlot(2, 0);
      assert view.outputs[0] == OutSlot(2, 0) && IndexOf(view.outputs, OutSlot(2, 0)) == 0;
    }
  }
}
