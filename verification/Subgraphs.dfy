/** Graph::SubstituteSubgraph and the steps it is made of. */
module Subgraphs {
  import opened Sequences
  import opened NetGraph
  import opened Evaluation
  import opened Ordering
  import opened LayerEdits
  import opened Priorities
  import opened Substitution
  import opened SubstitutionOrder
  import opened GraphModel

  lemma {:induction false} ReparentedIsValid(g: Net, h: Net, inputIds: set<int>, outputIds: set<int>, n: LayerId,
                                             li: LayerInfo, next: nat, next': nat)
    requires ValidState(g, inputIds, outputIds, next) && ListedAt(g, h, |g.layers|, n, li)
    requires h.source == g.source && h.sinks == g.sinks && h.strategies == g.strategies
    requires li.WellShaped() && li.Rank() == 1 && next <= next' && n < next'
    ensures ValidState(h, inputIds, outputIds, next')
  {
    ListedAtKeeps(g, h, |g.layers|, n, li);
    AddedIsLinked(g, h, n, li);
    IdsAdded(g.layers, g.info, 0, inputIds, |g.layers|, n, li);
    IdsAdded(g.layers, g.info, 2, outputIds, |g.layers|, n, li);
  }

  /** The ids of a rank no longer match the layers of that rank when a layer joins without its id. */
  lemma {:induction false} IdMissing(g: Net, h: Net, ids: set<int>, n: LayerId, li: LayerInfo)
    requires g.Listed() && IdsMatch(g.layers, g.info, li.Rank(), ids) && ListedAt(g, h, |g.layers|, n, li)
    ensures !IdsMatch(h.layers, h.info, li.Rank(), ids)
  {
    IdsSize(g, li.Rank(), ids);
    RanksOfInsert(g, h, |g.layers|, n, li);
    assert Ranks(h) == Ranks(g) + [li.Rank()];
    InsertAtMembers(g.layers, |g.layers|, n);
    if IdsMatch(h.layers, h.info, li.Rank(), ids) {
      IdsSize(h, li.Rank(), ids);
    }
  }

  lemma {:induction false} InsertAtEnd(s: seq<LayerId>, n: LayerId)
    ensures InsertAt(s, |s|, n) == s + [n]
  {
  }

  /** Layer::Reparent to the end of the list. It registers no binding id, so the id sets go wrong exactly if the
      layer is an Input or an Output. */
  method Reparent(graph: Graph, l: LayerId, li: LayerInfo)
    requires graph.Valid() && l !in graph.info && li.WellShaped()
    modifies graph`layers, graph`info, graph`nextGuid, graph`layersInOrder
    ensures (graph.Valid() <==> li.Rank() == 1) && !graph.layersInOrder
    ensures graph.Snapshot() == old(graph.Snapshot()).(layers := graph.layers, info := graph.info)
    ensures graph.info == old(graph.info)[l := li] && graph.layers == old(graph.layers) + [l]
  {
    ghost var g := graph.Snapshot();
    graph.layers := graph.layers + [l];
    graph.info := graph.info[l := li];
    graph.layersInOrder := false;
    ghost var next := graph.nextGuid;
    graph.nextGuid := if graph.nextGuid <= l then l + 1 else graph.nextGuid;
    InsertAtEnd(g.layers, l);
    if li.Rank() == 1 {
      ReparentedIsValid(g, graph.Snapshot(), graph.inputIds, graph.outputIds, l, li, next, graph.nextGuid);
    } else {
      IdMissing(g, graph.Snapshot(), if li.Rank() == 0 then graph.inputIds else graph.outputIds, l, li);
    }
  }

  lemma {:induction false} JoinedStart(g: Net, donor: Net)
    ensures Joined(g, donor, g, [])
  {
  }

  lemma {:induction false} JoinedNext(g: Net, donor: Net, h: Net, h': Net, s: seq<LayerId>, n: nat)
    requires n < |s| && Donates(g, donor) && Joined(g, donor, h, s[..n]) && (s[n] in g.info || s[n] in donor.info)
    requires h'.source == h.source && h'.sinks == h.sinks && h'.strategies == h.strategies && h'.overridden == h.overridden
    requires h'.info == if s[n] in h.info then h.info else h.info[s[n] := donor.info[s[n]]]
    ensures Joined(g, donor, h', s[..n + 1])
  {
    assert s[..n + 1] == s[..n] + [s[n]];
  }

  /** One layer of the substitute joins the graph unless it is there already. */
  method BringInOne(graph: Graph, l: LayerId, donor: Net)
    requires graph.Valid() && (l in graph.info || l in donor.info)
    requires l in donor.info ==> donor.info[l].WellShaped() && donor.info[l].Rank() == 1
    modifies graph`layers, graph`info, graph`nextGuid, graph`layersInOrder
    ensures graph.Valid()
    ensures graph.Snapshot() == old(graph.Snapshot()).(layers := graph.layers, info := graph.info)
    ensures graph.info == if l in old(graph.info) then old(graph.info) else old(graph.info)[l := donor.info[l]]
    ensures graph.layers == if l in old(graph.info) then old(graph.layers) else old(graph.layers) + [l]
    ensures graph.layersInOrder == (old(graph.layersInOrder) && l in old(graph.info))
  {
    if l !in graph.layers {
      Reparent(graph, l, donor.info[l]);
    }
  }

  /** The layers of the substitute that are not in the graph yet join it, and the list is out of order. */
  method BringIn(graph: Graph, layers: seq<LayerId>, donor: Net)
    requires graph.Valid() && Donates(graph.Snapshot(), donor)
    requires forall l :: l in layers ==> l in graph.info || l in donor.info
    modifies graph`layers, graph`info, graph`nextGuid, graph`layersInOrder
    ensures graph.Valid() && Joined(old(graph.Snapshot()), donor, graph.Snapshot(), layers)
    ensures graph.layersInOrder == (old(graph.layersInOrder) && graph.info == old(graph.info))
    ensures graph.info == old(graph.info) ==> graph.layers == old(graph.layers)
  {
    ghost var g := graph.Snapshot();
    JoinedStart(g, donor);
    var k := 0;
    while k < |layers|
      invariant k <= |layers| && graph.Valid() && Joined(g, donor, graph.Snapshot(), layers[..k])
      invariant graph.layersInOrder == (old(graph.layersInOrder) && graph.info == g.info)
      invariant graph.info == g.info ==> graph.layers == g.layers
    {
      ghost var h := graph.Snapshot();
      assert layers[k] in layers;
      BringInOne(graph, layers[k], donor);
      JoinedNext(g, donor, h, graph.Snapshot(), layers, k);
      k := k + 1;
    }
    assert layers[..k] == layers;
  }

  lemma {:induction false} JoinedThenAdopted(g: Net, donor: Net, m: Net, h: Net, s: seq<LayerId>)
    requires Joined(g, donor, m, s) && (forall l :: l in donor.info ==> l in s && l !in g.info)
    requires h.info == m.info && h.source == m.source + donor.source && h.sinks == m.sinks + donor.sinks
    requires h.strategies == m.strategies + donor.strategies && h.overridden == m.overridden + donor.overridden
    ensures Adopted(g, donor, h)
  {
    assert m.info == g.info + donor.info;
  }

  lemma {:induction false} AdoptedIsValid(g: Net, donor: Net, m: Net, h: Net, inputIds: set<int>, outputIds: set<int>, next: nat)
    requires g.Valid() && ValidState(m, inputIds, outputIds, next) && Donates(g, donor) && DonorSlotsOnly(donor) && Adopted(g, donor, h)
    requires h.layers == m.layers && h.info == m.info
    ensures ValidState(h, inputIds, outputIds, next)
  {
    AdoptedIsLinked(g, donor, h);
    forall i | i in h.overridden
      ensures h.IsIn(i)
    {
      assert i in g.overridden ==> g.IsIn(i);
    }
  }

  /** The new layers with all that hangs on their slots. */
  method Adopt(graph: Graph, layers: seq<LayerId>, donor: Net)
    requires graph.Valid() && Donates(graph.Snapshot(), donor) && DonorSlotsOnly(donor)
    requires forall l :: l in layers ==> l in graph.info || l in donor.info
    requires forall l :: l in donor.info ==> l in layers
    modifies graph`layers, graph`info, graph`nextGuid, graph`layersInOrder, graph`source, graph`sinks, graph`strategies, graph`overridden
    ensures graph.Valid() && Adopted(old(graph.Snapshot()), donor, graph.Snapshot())
    ensures graph.layersInOrder == (old(graph.layersInOrder) && graph.info == old(graph.info))
    ensures donor.info == map[] ==> graph.Snapshot() == old(graph.Snapshot())
  {
    ghost var g := graph.Snapshot();
    BringIn(graph, layers, donor);
    TakeSlots(graph, layers, donor, g);
  }

  lemma {:induction false} NothingAdopted(g: Net, donor: Net, h: Net)
    requires Donates(g, donor) && DonorSlotsOnly(donor) && Adopted(g, donor, h)
    requires h.info == g.info ==> h.layers == g.layers
    ensures donor.info == map[] ==> h == g
  {
    if donor.info == map[] {
      forall i
        ensures i !in donor.source
      {
        assert donor.SourceOK(i);
      }
      assert donor.source == map[] && donor.sinks == map[] && donor.strategies == map[];
      assert forall i :: i in donor.overridden ==> donor.IsIn(i);
      assert donor.overridden == map[];
    }
  }

  method TakeSlots(graph: Graph, ghost layers: seq<LayerId>, donor: Net, ghost g: Net)
    requires graph.Valid() && g.Valid() && Joined(g, donor, graph.Snapshot(), layers) && Donates(g, donor) && DonorSlotsOnly(donor)
    requires (forall l :: l in donor.info ==> l in layers) && (graph.info == g.info ==> graph.layers == g.layers)
    modifies graph`source, graph`sinks, graph`strategies, graph`overridden
    ensures graph.Valid() && Adopted(g, donor, graph.Snapshot())
    ensures donor.info == map[] ==> graph.Snapshot() == g
  {
    ghost var m := graph.Snapshot();
    MergeSlots(graph, donor);
    ghost var h := graph.Snapshot();
    JoinedThenAdopted(g, donor, m, h, layers);
    AdoptedIsValid(g, donor, m, h, graph.inputIds, graph.outputIds, graph.nextGuid);
    NothingAdopted(g, donor, h);
  }

  method MergeSlots(graph: Graph, donor: Net)
    modifies graph`source, graph`sinks, graph`strategies, graph`overridden
    ensures var g := old(graph.Snapshot());
      graph.Snapshot() == g.(source := g.source + donor.source, sinks := g.sinks + donor.sinks,
                             strategies := g.strategies + donor.strategies, overridden := g.overridden + donor.overridden)
  {
    graph.source, graph.sinks := graph.source + donor.source, graph.sinks + donor.sinks;
    graph.strategies, graph.overridden := graph.strategies + donor.strategies, graph.overridden + donor.overridden;
  }

  /** One boundary input: its connection and its own tensor info, if it has one, go to the new slot. */
  method MoveInput(graph: Graph, i: InSlot, j: InSlot) returns (r: Result<()>)
    requires graph.Valid() && graph.Snapshot().IsIn(j) && i in graph.source && i != j
    modifies graph`source, graph`sinks, graph`strategies, graph`overridden
    ensures graph.Valid()
    ensures r.Ok? <==> j !in old(graph.source)
    ensures r.Ok? ==> Swapped(old(graph.Snapshot()), graph.Snapshot(), i, j)
  {
    r := MoveConnection(graph, i, j);
    if r.Err? {
      return;
    }
    CopyTensorInfo(graph, i, j);
  }

  method MoveConnection(graph: Graph, i: InSlot, j: InSlot) returns (r: Result<()>)
    requires graph.Valid() && graph.Snapshot().IsIn(j) && i in graph.source && i != j
    modifies graph`source, graph`sinks, graph`strategies
    ensures graph.Valid()
    ensures r.Ok? <==> j !in old(graph.source)
    ensures r.Ok? ==> SwappedEdge(old(graph.Snapshot()), graph.Snapshot(), i, j)
  {
    ghost var h := graph.Snapshot();
    var o := graph.source[i];
    assert h.SourceOK(i);
    graph.Disconnect(o, i);
    var c := graph.Connect(o, j);
    Reconnected(h, graph.Snapshot(), i, j, graph.inputIds, graph.outputIds, graph.nextGuid);
    r := if c.Ok? then Ok(()) else Err(c.error);
  }

  /** Connecting fails if the new slot is taken; then the old connection is lost. */
  lemma {:induction false} Reconnected(h: Net, k: Net, i: InSlot, j: InSlot, inputIds: set<int>, outputIds: set<int>, n: nat)
    requires ValidState(h, inputIds, outputIds, n) && i in h.source && i != j && h.IsIn(j) && k.Linked()
    requires k == if j in h.source then h.Unlink(h.source[i], i) else h.Unlink(h.source[i], i).Link(h.source[i], j)
    ensures ValidState(k, inputIds, outputIds, n)
    ensures j !in h.source ==> SwappedEdge(h, k, i, j)
  {
    EdgesKeepValid(h, k, inputIds, outputIds, n);
    if j !in h.source {
      SwapOne(h, i, j, h.Unlink(h.source[i], i), k);
    }
  }

  /** InputSlot::SetTensorInfo, when the old slot has one of its own. */
  method CopyTensorInfo(graph: Graph, i: InSlot, j: InSlot)
    requires graph.Valid() && graph.Snapshot().IsIn(j)
    modifies graph`overridden
    ensures graph.Valid()
    ensures graph.overridden == if i in old(graph.overridden) then old(graph.overridden)[j := old(graph.overridden)[i]] else old(graph.overridden)
    ensures forall x :: graph.Snapshot().StrategyOf(x) == old(graph.Snapshot()).StrategyOf(x)
  {
    ghost var h := graph.Snapshot();
    if i in graph.overridden {
      graph.overridden := graph.overridden[j := graph.overridden[i]];
    }
    OverriddenKeepsValid(h, graph.Snapshot(), graph.inputIds, graph.outputIds, graph.nextGuid);
  }

  /** Step 1 of Graph::ReplaceSubgraphConnections. Fails at the first connection whose new slot is taken. */
  method MoveInputs(graph: Graph, from: seq<InSlot>, to: seq<InSlot>) returns (r: Result<()>)
    requires graph.Valid() && FreshInputs(graph.Snapshot(), from, to)
    modifies graph`source, graph`sinks, graph`strategies, graph`overridden
    ensures graph.Valid()
    ensures r.Ok? <==> Free(old(graph.Snapshot()), from, to, |from|)
    ensures r.Ok? ==> InputsMoved(old(graph.Snapshot()), graph.Snapshot(), from, to, |from|)
  {
    ghost var g := graph.Snapshot();
    InputsMovedStart(g, from, to);
    var k := 0;
    while k < |from|
      invariant k <= |from| && graph.Valid() && InputsMoved(g, graph.Snapshot(), from, to, k)
      invariant Free(g, from, to, k)
    {
      r := MoveNextInput(graph, from, to, k, g);
      if r.Err? {
        TakenSlot(g, from, to, k);
        return;
      }
      FreeNext(g, from, to, k);
      k := k + 1;
    }
    AllInputsMoved(g, graph.Snapshot(), from, to, k, |from|);
    return Ok(());
  }

  /** The k-th boundary input, if it is connected. */
  method MoveNextInput(graph: Graph, from: seq<InSlot>, to: seq<InSlot>, k: nat, ghost g: Net) returns (r: Result<()>)
    requires graph.Valid() && FreshInputs(g, from, to) && k < |from| && InputsMoved(g, graph.Snapshot(), from, to, k)
    modifies graph`source, graph`sinks, graph`strategies, graph`overridden
    ensures graph.Valid()
    ensures r.Err? <==> from[k] in g.source && to[k] in g.source
    ensures r.Ok? ==> InputsMoved(g, graph.Snapshot(), from, to, k + 1)
  {
    ghost var h := graph.Snapshot();
    InputsMovedSkip(g, h, from, to, k);
    assert from[k] in from && to[k] in to;
    r := Ok(());
    if from[k] in graph.source {
      r := MoveInput(graph, from[k], to[k]);
      if r.Ok? {
        InputsMovedNext(g, h, graph.Snapshot(), from, to, k);
      }
    }
  }

  lemma {:induction false} TakenSlot(g: Net, from: seq<InSlot>, to: seq<InSlot>, k: nat)
    requires k < |from| == |to| && from[k] in g.source && to[k] in g.source
    ensures !Free(g, from, to, |from|)
  {
  }

  lemma {:induction false} FreeNext(g: Net, from: seq<InSlot>, to: seq<InSlot>, k: nat)
    requires k < |from| == |to| && Free(g, from, to, k) && !(from[k] in g.source && to[k] in g.source)
    ensures Free(g, from, to, k + 1)
  {
  }

  lemma {:induction false} AllInputsMoved(g: Net, h: Net, from: seq<InSlot>, to: seq<InSlot>, k: nat, n: nat)
    requires |from| == |to| && k == n <= |from| && InputsMoved(g, h, from, to, k) && Free(g, from, to, k)
    ensures InputsMoved(g, h, from, to, n) && Free(g, from, to, n)
  {
  }

  /** Step 2 of Graph::ReplaceSubgraphConnections. */
  method MoveOutputs(graph: Graph, from: seq<OutSlot>, to: seq<OutSlot>)
    requires graph.Valid() && FreshOutputs(graph.Snapshot(), from, to)
    requires forall o :: o in from ==> Unassigned(graph.Snapshot(), o)
    modifies graph`source, graph`sinks, graph`strategies
    ensures graph.Valid() && OutputsMoved(old(graph.Snapshot()), graph.Snapshot(), from, to, |from|)
  {
    ghost var g := graph.Snapshot();
    OutputsMovedStart(g, from, to);
    var k := 0;
    while k < |from|
      invariant k <= |from| && graph.Valid() && OutputsMoved(g, graph.Snapshot(), from, to, k)
    {
      ghost var h := graph.Snapshot();
      assert from[k] in from && to[k] in to;
      OutputsMovedUnassigned(g, h, from, to, k);
      graph.MoveAllConnections(from[k], to[k]);
      EdgesKeepValid(h, graph.Snapshot(), graph.inputIds, graph.outputIds, graph.nextGuid);
      OutputsMovedNext(g, h, graph.Snapshot(), from, to, k);
      k := k + 1;
    }
  }

  /** Graph::EraseSubgraphLayers. */
  method EraseSubgraphLayers(graph: Graph, layers: seq<LayerId>)
    requires graph.Valid() && NoDup(layers) && forall k :: 0 <= k < |layers| ==> layers[k] in graph.info
    modifies graph`layers, graph`info, graph`overridden, graph`source, graph`sinks, graph`strategies, graph`inputIds, graph`outputIds
    ensures graph.Valid() && ErasedAll(old(graph.Snapshot()), graph.Snapshot(), Elems(layers))
  {
    ghost var g := graph.Snapshot();
    ErasedAllStart(g);
    var k := 0;
    assert Elems(layers[..0]) == {};
    while k < |layers|
      invariant k <= |layers| && graph.Valid() && ErasedAll(g, graph.Snapshot(), Elems(layers[..k]))
    {
      ghost var h := graph.Snapshot();
      StillThere(g, h, layers, k);
      graph.EraseLayer(layers[k]);
      ErasedPrefix(g, h, graph.Snapshot(), layers, k);
      k := k + 1;
    }
    assert layers[..k] == layers;
  }

  lemma {:induction false} StillThere(g: Net, h: Net, layers: seq<LayerId>, k: nat)
    requires NoDup(layers) && k < |layers| && layers[k] in g.info && LayersGone(g, h, Elems(layers[..k]))
    ensures layers[k] in h.info
  {
    PrefixNext(layers, k);
  }

  lemma {:induction false} ErasedPrefix(g: Net, h: Net, h': Net, layers: seq<LayerId>, k: nat)
    requires k < |layers| && NoDup(g.layers) && ErasedAll(g, h, Elems(layers[..k])) && Erased(h, h', layers[k])
    ensures ErasedAll(g, h', Elems(layers[..k + 1]))
  {
    ErasedAllNext(g, h, h', Elems(layers[..k]), layers[k]);
    assert layers[..k + 1] == layers[..k] + [layers[k]];
    assert Elems(layers[..k + 1]) == Elems(layers[..k]) + {layers[k]};
  }

  /** The substitution without taking in the new layers and without the sort. */
  method Exchange(graph: Graph, view: View, sub: View) returns (r: Result<()>)
    requires graph.Valid() && Fits(graph.Snapshot(), view, sub)
    requires forall o :: o in view.outputs ==> Unassigned(graph.Snapshot(), o)
    modifies graph`layers, graph`info, graph`overridden, graph`source, graph`sinks, graph`strategies, graph`inputIds, graph`outputIds
    ensures graph.Valid()
    ensures r.Ok? <==> Free(old(graph.Snapshot()), view.inputs, sub.inputs, |sub.inputs|)
    ensures r.Ok? ==> Substituted(old(graph.Snapshot()), graph.Snapshot(), view, sub)
    ensures r.Ok? ==> graph.layers == Without(old(graph.layers), Elems(view.layers))
    ensures r.Ok? && Sorted(old(graph.Snapshot()))
      ==> (Sorted(graph.Snapshot()) <==> InputsAfter(old(graph.Snapshot()), view, sub) && OutputsBefore(old(graph.Snapshot()), view, sub))
  {
    ghost var g := graph.Snapshot();
    r := MoveInputs(graph, view.inputs, sub.inputs);
    if r.Err? {
      return;
    }
    ghost var m := graph.Snapshot();
    forall o | o in view.outputs
      ensures Unassigned(m, o)
    {
      InputsMovedUnassigned(g, m, view.inputs, sub.inputs, |sub.inputs|, o);
    }
    MoveOutputs(graph, view.outputs, sub.outputs);
    ghost var p := graph.Snapshot();
    EraseSubgraphLayers(graph, view.layers);
    SubstitutedInSteps(g, m, p, graph.Snapshot(), view, sub);
    if Sorted(g) {
      SubstitutionKeepsOrderExactly(g, graph.Snapshot(), view, sub);
    }
  }

  /** The sort at the end. */
  method SortAgain(graph: Graph, ghost a: Net, ghost view: View, ghost sub: View) returns (r: Result<()>)
    requires graph.Valid() && Compatible(view, sub) && Substituted(a, graph.Snapshot(), view, sub)
    modifies graph`layers, graph`layersInOrder, graph`priority, graph`visiting
    ensures graph.Valid() && Substituted(a, graph.Snapshot(), view, sub)
    ensures r.Ok? ==> graph.layersInOrder
    ensures old(graph.layersInOrder) ==> r.Ok? && graph.Snapshot() == old(graph.Snapshot())
    ensures !old(graph.layersInOrder) && graph.Sortable() ==> (r.Ok? <==> Acyclic(graph.Snapshot())) && (r.Ok? ==> Sorted(graph.Snapshot()))
  {
    ghost var h := graph.Snapshot();
    r := graph.TopologicalSort();
    RelistedIsSubstituted(a, h, graph.Snapshot(), view, sub);
    RelistedIsAcyclic(h, graph.Snapshot());
  }

  /** The substitution without taking in the new layers. */
  method ExchangeAndSort(graph: Graph, view: View, sub: View) returns (r: Result<()>)
    requires graph.Valid() && Fits(graph.Snapshot(), view, sub)
    requires forall o :: o in view.outputs ==> Unassigned(graph.Snapshot(), o)
    modifies graph`layers, graph`info, graph`overridden, graph`source, graph`sinks, graph`strategies, graph`inputIds, graph`outputIds
    modifies graph`layersInOrder, graph`priority, graph`visiting
    ensures graph.Valid()
    ensures !Free(old(graph.Snapshot()), view.inputs, sub.inputs, |sub.inputs|) ==> r.Err?
    ensures r.Ok? ==> graph.layersInOrder
    ensures Free(old(graph.Snapshot()), view.inputs, sub.inputs, |sub.inputs|) ==> Substituted(old(graph.Snapshot()), graph.Snapshot(), view, sub)
    ensures Free(old(graph.Snapshot()), view.inputs, sub.inputs, |sub.inputs|) && old(graph.layersInOrder)
      ==> r.Ok? && graph.layers == Without(old(graph.layers), Elems(view.layers))
    ensures Free(old(graph.Snapshot()), view.inputs, sub.inputs, |sub.inputs|) && old(graph.layersInOrder && Sorted(graph.Snapshot()))
      ==> (Sorted(graph.Snapshot()) <==> InputsAfter(old(graph.Snapshot()), view, sub) && OutputsBefore(old(graph.Snapshot()), view, sub))
    ensures Free(old(graph.Snapshot()), view.inputs, sub.inputs, |sub.inputs|) && !old(graph.layersInOrder) && graph.Sortable()
      ==> (r.Ok? <==> Acyclic(graph.Snapshot())) && (r.Ok? ==> Sorted(graph.Snapshot()))
  {
    ghost var a := graph.Snapshot();
    r := Exchange(graph, view, sub);
    if r.Ok? {
      r := SortAgain(graph, a, view, sub);
    }
  }

  /** Graph::SubstituteSubgraph. The list is sorted again unless every layer of the substitute was
      already in a list whose flag is up; then the order may break, see SubstitutionOrder. */
  method SubstituteSubgraph(graph: Graph, view: View, sub: View, donor: Net) returns (r: Result<()>, ghost a: Net)
    requires graph.Valid() && Donates(graph.Snapshot(), donor) && DonorSlotsOnly(donor)
    requires forall l :: l in sub.layers ==> l in graph.info || l in donor.info
    requires forall l :: l in donor.info ==> l in sub.layers
    requires Suits(graph.Snapshot(), donor, view, sub)
    modifies graph`layers, graph`info, graph`nextGuid, graph`layersInOrder, graph`source, graph`sinks, graph`strategies, graph`overridden
    modifies graph`inputIds, graph`outputIds, graph`priority, graph`visiting
    ensures graph.Valid() && Adopted(old(graph.Snapshot()), donor, a) && Fits(a, view, sub)
    ensures donor.info == map[] ==> a == old(graph.Snapshot())
    ensures !Free(a, view.inputs, sub.inputs, |sub.inputs|) ==> r.Err?
    ensures r.Ok? ==> graph.layersInOrder
    ensures Free(a, view.inputs, sub.inputs, |sub.inputs|) ==> Substituted(a, graph.Snapshot(), view, sub)
    ensures Free(a, view.inputs, sub.inputs, |sub.inputs|) && (donor.info != map[] || !old(graph.layersInOrder)) && graph.Sortable()
      ==> (r.Ok? <==> Acyclic(graph.Snapshot())) && (r.Ok? ==> Sorted(graph.Snapshot()))
    ensures Free(a, view.inputs, sub.inputs, |sub.inputs|) && donor.info == map[] && old(graph.layersInOrder)
      ==> r.Ok? && graph.layers == Without(old(graph.layers), Elems(view.layers))
    ensures Free(a, view.inputs, sub.inputs, |sub.inputs|) && donor.info == map[] && old(graph.layersInOrder && Sorted(graph.Snapshot()))
      ==> (Sorted(graph.Snapshot()) <==> InputsAfter(a, view, sub) && OutputsBefore(a, view, sub))
  {
    ghost var g := graph.Snapshot();
    Adopt(graph, sub.layers, donor);
    a := graph.Snapshot();
    AdoptionGrows(g, donor, a);
    r := ExchangeAndSort(graph, view, sub);
  }

  lemma {:induction false} AdoptionGrows(g: Net, donor: Net, a: Net)
    requires Donates(g, donor) && Adopted(g, donor, a)
    ensures donor.info != map[] ==> a.info != g.info
  {
    if donor.info != map[] {
      var l :| l in donor.info;
      assert l in a.info;
    }
  }

  lemma {:induction false} RelistedIsSubstituted(a: Net, h: Net, k: Net, view: View, sub: View)
    requires Compatible(view, sub) && Substituted(a, h, view, sub) && k == h.(layers := k.layers)
    ensures Substituted(a, k, view, sub)
  {
    assert forall p :: k.Sinks(p) == h.Sinks(p);
    assert forall i :: k.StrategyOf(i) == h.StrategyOf(i);
    forall i
      ensures Rewired(a, k, view, sub, i)
    {
      assert Rewired(a, h, view, sub, i);
    }
    forall i
      ensures InfoKept(a, k, view, sub, i)
    {
      assert InfoKept(a, h, view, sub, i);
    }
    forall n | 0 <= n < |sub.outputs|
      ensures ReadersInOrder(a, k, view, sub, n)
    {
      assert ReadersInOrder(a, h, view, sub, n);
    }
  }
}
