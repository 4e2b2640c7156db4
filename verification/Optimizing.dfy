/**
  The end of Optimize as one run: the last pass over the optimizations, the debug layers if they are asked for, the
  strategies of the edges, the compatibility layers. What every Output returns stays the same, the list is sorted, and every
  Input is read.
 */
module Optimizing {
  import opened Sequences
  import opened NetGraph
  import opened Evaluation
  import opened Ordering
  import opened Rewrites
  import opened LayerEdits
  import opened GraphModel
  import opened Compatibility
  import opened NetworkUtils
  import opened Optimizer
  import opened ReadInputs
  import Connections

  /** What the Outputs, and all other layers without output slots, receive is the same in both graphs. */
  ghost predicate ReturnsSame(g: Net, h: Net) {
    && g.Linked() && h.Linked() && Acyclic(g) && Acyclic(h)
    && (forall l :: l in g.info && g.info[l].numOut == 0 ==> l in h.info && h.info[l] == g.info[l])
    && (forall f: Sem, l :: l in g.info && g.info[l].numOut == 0 && g.info[l].numIn > 0 ==> Reaching(h, f, l) == Reaching(g, f, l))
  }

  lemma {:induction false} ReturnsSameTransitive(g: Net, h: Net, k: Net)
    requires ReturnsSame(g, h) && ReturnsSame(h, k)
    ensures ReturnsSame(g, k)
  {
  }

  /** If the layers of h receive in g what they receive in h, and no layer without output slots is missing in h. */
  lemma {:induction false} FewerReturnSame(g: Net, h: Net)
    requires g.Linked() && h.Linked() && Acyclic(g) && Acyclic(h) && KeepsMeaning(h, g)
    requires forall l :: l in g.info && g.info[l].numOut == 0 ==> l in h.info
    ensures ReturnsSame(g, h)
  {
    forall f: Sem, l | l in g.info && g.info[l].numOut == 0 && g.info[l].numIn > 0
      ensures Reaching(h, f, l) == Reaching(g, f, l)
    {
      SameMeaning(h, g, f);
    }
  }

  lemma {:induction false} PruningReturnsSame(g: Net, h: Net)
    requires g.Valid() && h.Valid() && Pruned(g, h) && Acyclic(g)
    ensures ReturnsSame(g, h)
  {
    PrunedIsAcyclic(g, h);
    PrunedMeaning(g, h);
    forall l | l in g.info && g.info[l].numOut == 0
      ensures l in h.info
    {
      SinkIsLive(g, l);
    }
    FewerReturnSame(g, h);
  }

  lemma {:induction false} DebugReturnsSame(g: Net, h: Net, l: LayerId, debugs: seq<LayerId>)
    requires g.Valid() && h.Valid() && l in g.info && Tapped(g, h, l, AsTaps(debugs), DebugInfo()) && Acyclic(g) && Acyclic(h)
    ensures ReturnsSame(g, h)
  {
    forall f: Sem, m | m in g.info && g.info[m].numOut == 0 && g.info[m].numIn > 0
      ensures Reaching(h, f, m) == Reaching(g, f, m)
    {
      DebugKeepsMeaning(g, h, l, debugs, f);
    }
  }

  lemma {:induction false} CompatibilityReturnsSame(g: Net, h: Net, owner: map<LayerId, InSlot>, done: set<InSlot>)
    requires g.Valid() && h.Valid() && CompatState(g, h, owner, done) && Acyclic(g) && Acyclic(h)
    ensures ReturnsSame(g, h)
  {
    forall f: Sem, l | l in g.info && g.info[l].numOut == 0 && g.info[l].numIn > 0
      ensures Reaching(h, f, l) == Reaching(g, f, l)
    {
      CompatibilityKeepsMeaning(g, h, owner, done, f);
    }
  }

  /** A layer that nobody reads can go. */
  lemma {:induction false} ErasingReturnsSame(g: Net, h: Net, l: LayerId)
    requires g.Valid() && h.Valid() && Acyclic(g) && Acyclic(h) && Erased(g, h, l) && OutputUnconnected(g, l)
    ensures ReturnsSame(g, h)
  {
    ErasingKeepsMeaning(g, h, l);
    FewerReturnSame(g, h);
  }

  lemma {:induction false} ErasingKeepsMeaning(g: Net, h: Net, l: LayerId)
    requires Erased(g, h, l) && OutputUnconnected(g, l)
    ensures KeepsMeaning(h, g)
  {
    forall i | h.IsIn(i)
      ensures i in h.source <==> i in g.source
    {
    }
  }

  /** The graphs differ in the strategies of edges only. */
  ghost predicate OnlyStrategies(g: Net, h: Net) {
    SameLayers(g, h) && h.source == g.source && h.sinks == g.sinks
  }

  lemma {:induction false} StrategiesReturnSame(g: Net, h: Net)
    requires g.Valid() && h.Valid() && OnlyStrategies(g, h) && Acyclic(g)
    ensures Acyclic(h) && ReturnsSame(g, h)
  {
    var rank: map<LayerId, nat> :| Ranked(g, rank);
    assert Ranked(h, rank);
    assert KeepsMeaning(h, g);
    FewerReturnSame(g, h);
  }

  /** A Debug layer is the only reader of o. */
  ghost predicate Watched(g: Net, o: OutSlot) {
    exists n :: n in g.info && g.info[n].kind.Debug? && g.Sinks(o) == [InSlot(n, 0)]
  }

  /** From position p on every output slot is watched, unless it is that of a Debug layer. */
  ghost predicate WatchedFrom(g: Net, p: nat) {
    forall o :: g.IsOut(o) && !g.info[o.layer].kind.Debug? && p <= Pos(g, o.layer) ==> Watched(g, o)
  }

  /** All layers but Debug layers are still there. */
  ghost predicate OthersStay(g: Net, h: Net) {
    forall l :: l in g.info && !g.info[l].kind.Debug? ==> l in h.info && h.info[l] == g.info[l]
  }

  lemma {:induction false} WatchedIsRead(g: Net, o: OutSlot) returns (i: InSlot)
    requires g.Linked() && Watched(g, o)
    ensures i in g.source && g.source[i] == o && i.layer in g.info && g.info[i.layer].kind.Debug? && g.Sinks(o) == [i]
  {
    var n :| n in g.info && g.info[n].kind.Debug? && g.Sinks(o) == [InSlot(n, 0)];
    i := InSlot(n, 0);
    assert g.SinksOK(o) && i in g.Sinks(o);
  }

  lemma {:induction false} WatchedInputsRead(g: Net)
    requires g.Valid() && WatchedFrom(g, 0)
    ensures InputsRead(g)
  {
    forall l | l in g.info && g.info[l].kind.Input?
      ensures HasReader(g, l)
    {
      assert g.info[l].WellShaped() && g.IsOut(OutSlot(l, 0));
      var i := WatchedIsRead(g, OutSlot(l, 0));
    }
  }

  /** The first p layers are the same. */
  ghost predicate SameUpTo(g: Net, h: Net, p: nat) {
    p <= |g.layers| && p <= |h.layers| && h.layers[..p] == g.layers[..p]
  }

  lemma {:induction false} DebugWatches(g: Net, h: Net, l: LayerId, p: nat, debugs: seq<LayerId>)
    requires g.Valid() && h.Valid() && p < |g.layers| && g.layers[p] == l && WatchedFrom(g, p + 1) && SameUpTo(g, h, p)
    requires l in g.info && |debugs| == g.info[l].numOut && Tapped(g, h, l, AsTaps(debugs), DebugInfo())
    ensures WatchedFrom(h, p)
  {
    forall o | h.IsOut(o) && !h.info[o.layer].kind.Debug? && p <= Pos(h, o.layer)
      ensures Watched(h, o)
    {
      TapIsNew(g, h, l, AsTaps(debugs), DebugInfo(), o.layer);
      assert o.layer in g.layers && g.IsOut(o);
      AfterPrefix(h.layers, g.layers, p, o.layer);
      if o.layer == l {
        assert IsTap(g, h, OutSlot(l, o.index), AsTaps(debugs)[o.index], DebugInfo());
      } else {
        assert g.layers[Pos(g, o.layer)] == o.layer;
        assert Watched(g, o) && h.Sinks(o) == g.Sinks(o);
      }
    }
  }

  lemma {:induction false} ErasingWatches(g: Net, h: Net, l: LayerId, p: nat)
    requires g.Valid() && h.Valid() && Forward(g) && p < |g.layers| && g.layers[p] == l && WatchedFrom(g, p) && SameUpTo(g, h, p)
    requires Erased(g, h, l)
    ensures WatchedFrom(h, p)
  {
    IndexOfUnique(g.layers, p);
    forall o | h.IsOut(o) && !h.info[o.layer].kind.Debug? && p <= Pos(h, o.layer)
      ensures Watched(h, o)
    {
      AfterPrefix(h.layers, g.layers, p, o.layer);
      var i := WatchedIsRead(g, o);
      assert i in h.source && h.SourceOK(i);
      OnlyOneLeft(h.Sinks(o), i);
    }
  }

  lemma {:induction false} OnlyOneLeft(s: seq<InSlot>, i: InSlot)
    requires Subsequence(s, [i]) && i in s
    ensures s == [i]
  {
  }

  /** A layer that nobody reads is a Debug layer, once the slots of all others are watched. */
  lemma {:induction false} UnreadIsDebug(g: Net, l: LayerId, p: nat)
    requires g.Valid() && p < |g.layers| && g.layers[p] == l && WatchedFrom(g, p) && OutputUnconnected(g, l)
    ensures g.info[l].kind.Debug?
  {
    IndexOfUnique(g.layers, p);
    if !g.info[l].kind.Debug? {
      assert g.IsOut(OutSlot(l, 0));
      var i := WatchedIsRead(g, OutSlot(l, 0));
    }
  }

  /** What holds while the debug layers are put in, before position p. */
  ghost predicate Debugging(g0: Net, g: Net, p: nat) {
    g.Valid() && Sorted(g) && NoStrategies(g) && ReturnsSame(g0, g) && WatchedFrom(g, p) && OthersStay(g0, g) && p <= |g.layers|
  }

  lemma {:induction false} DebugAdded(g0: Net, g: Net, h: Net, l: LayerId, p: nat, debugs: seq<LayerId>)
    requires Debugging(g0, g, p + 1) && g.layers[p] == l && l in g.info && |debugs| == g.info[l].numOut
    requires h.Valid() && Sorted(h) && NoStrategies(h) && SamePrefix(g, h, l) && Tapped(g, h, l, AsTaps(debugs), DebugInfo())
    ensures Debugging(g0, h, p) && p < |h.layers| && h.layers[p] == l
  {
    IndexOfUnique(g.layers, p);
    PrefixTo(g.layers, h.layers, p);
    SortedIsAcyclic(h);
    DebugReturnsSame(g, h, l, debugs);
    ReturnsSameTransitive(g0, g, h);
    DebugWatches(g, h, l, p, debugs);
  }

  lemma {:induction false} PrefixTo(s: seq<LayerId>, t: seq<LayerId>, p: nat)
    requires p < |s| && p < |t| && t[..p + 1] == s[..p + 1]
    ensures t[p] == s[p] && t[..p] == s[..p]
  {
    assert t[p] == t[..p + 1][p] && s[p] == s[..p + 1][p];
    assert t[..p] == t[..p + 1][..p] && s[..p] == s[..p + 1][..p];
  }

  /** A layer that is passed over has no output slots, or is a Debug layer. */
  lemma {:induction false} NoDebugHere(g0: Net, g: Net, l: LayerId, p: nat)
    requires Debugging(g0, g, p + 1) && g.layers[p] == l && l in g.info && (g.info[l].kind.Debug? || g.info[l].kind.Output?)
    ensures Debugging(g0, g, p)
  {
    assert g.info[l].WellShaped();
    forall o | g.IsOut(o) && !g.info[o.layer].kind.Debug? && p <= Pos(g, o.layer)
      ensures Watched(g, o)
    {
      assert o.layer in g.layers && g.layers[Pos(g, o.layer)] == o.layer;
    }
  }

  lemma {:induction false} UnreadErased(g0: Net, g: Net, h: Net, l: LayerId, p: nat)
    requires Debugging(g0, g, p) && p < |g.layers| && g.layers[p] == l && OutputUnconnected(g, l)
    requires h.Valid() && Sorted(h) && Erased(g, h, l)
    ensures Debugging(g0, h, p)
  {
    IndexOfUnique(g.layers, p);
    assert h.layers[..p] == g.layers[..p];
    SortedIsAcyclic(h);
    ErasingReturnsSame(g, h, l);
    ReturnsSameTransitive(g0, g, h);
    ErasingWatches(g, h, l, p);
    UnreadIsDebug(g, l, p);
  }

  /** The debug optimization at one layer. */
  method DebugLayerAt(graph: Graph, p: nat, ghost g0: Net)
    requires graph.Valid() && Debugging(g0, graph.Snapshot(), p + 1)
    modifies graph`layers, graph`info, graph`source, graph`sinks, graph`strategies, graph`inputIds, graph`outputIds, graph`nextGuid
    ensures graph.Valid() && Debugging(g0, graph.Snapshot(), p)
    ensures p < |graph.layers| && graph.layers[p] == old(graph.layers)[p]
  {
    ghost var g := graph.Snapshot();
    var l := graph.layers[p];
    assert l in graph.layers;
    if !graph.info[l].kind.Debug? && !graph.info[l].kind.Output? {
      NothingAssigned(g, l);
      var debugs := InsertDebugLayerAfter(graph, l);
      DebugAdded(g0, g, graph.Snapshot(), l, p, debugs);
    } else {
      NoDebugHere(g0, g, l, p);
    }
  }

  /** The pass erases the layer if nobody reads it. */
  method EraseUnread(graph: Graph, p: nat, ghost g0: Net)
    requires graph.Valid() && Debugging(g0, graph.Snapshot(), p) && p < |graph.layers|
    modifies graph`layers, graph`info, graph`overridden, graph`source, graph`sinks, graph`strategies, graph`inputIds, graph`outputIds
    ensures graph.Valid() && Debugging(g0, graph.Snapshot(), p)
  {
    ghost var g := graph.Snapshot();
    var l := graph.layers[p];
    assert l in graph.layers;
    var unread := IsOutputUnconnected(graph, l);
    if unread {
      graph.EraseLayer(l);
      UnreadErased(g0, g, graph.Snapshot(), l, p);
    }
  }

  lemma {:induction false} NothingAssigned(g: Net, l: LayerId)
    requires g.Linked() && NoStrategies(g)
    ensures forall k: nat :: Unassigned(g, OutSlot(l, k))
  {
    forall k: nat
      ensures Unassigned(g, OutSlot(l, k))
    {
      UnassignedByReaders(g, OutSlot(l, k));
    }
  }

  lemma {:induction false} DebugStarts(g: Net)
    requires g.Valid() && Sorted(g) && NoStrategies(g)
    ensures Debugging(g, g, |g.layers|)
  {
    SortedIsAcyclic(g);
    forall l | l in g.info
      ensures Pos(g, l) < |g.layers|
    {
      assert l in g.layers;
    }
  }

  /** One step of the walk. */
  method DebugOne(graph: Graph, p: nat, ghost g0: Net)
    requires graph.Valid() && graph.layersInOrder && Debugging(g0, graph.Snapshot(), p + 1)
    modifies graph`layers, graph`info, graph`overridden, graph`source, graph`sinks, graph`strategies, graph`inputIds, graph`outputIds
    modifies graph`nextGuid, graph`priority, graph`visiting, graph`layersInOrder
    ensures graph.Valid() && graph.layersInOrder && Debugging(g0, graph.Snapshot(), p)
  {
    StaySorted(graph);
    DebugLayerAt(graph, p, g0);
    EraseUnread(graph, p, g0);
  }

  /** Pass with the debug optimization alone: a Debug layer behind every output slot, except those of Debug layers. It walks
      backwards, so that it does not meet the layers it puts in. */
  method DebugPass(graph: Graph)
    requires graph.Valid() && graph.layersInOrder && Sorted(graph.Snapshot()) && NoStrategies(graph.Snapshot())
    modifies graph`layers, graph`info, graph`overridden, graph`source, graph`sinks, graph`strategies, graph`inputIds, graph`outputIds
    modifies graph`nextGuid, graph`priority, graph`visiting, graph`layersInOrder
    ensures graph.Valid() && graph.layersInOrder && Sorted(graph.Snapshot()) && NoStrategies(graph.Snapshot())
    ensures ReturnsSame(old(graph.Snapshot()), graph.Snapshot()) && OthersStay(old(graph.Snapshot()), graph.Snapshot())
    ensures WatchedFrom(graph.Snapshot(), 0)
  {
    ghost var g0 := graph.Snapshot();
    DebugStarts(g0);
    var p: nat := |graph.layers|;
    while p > 0
      invariant graph.Valid() && graph.layersInOrder && Debugging(g0, graph.Snapshot(), p)
    {
      p := p - 1;
      DebugOne(graph, p, g0);
    }
  }

  /** The strategies of one output slot's edges, until one cannot be found. */
  method SelectForSlot(graph: Graph, o: OutSlot, choose: InSlot -> EdgeStrategy) returns (ok: bool)
    requires graph.Valid()
    modifies graph`strategies
    ensures graph.Valid() && OnlyStrategies(old(graph.Snapshot()), graph.Snapshot())
    ensures ok <==> forall i :: i in graph.source && graph.source[i] == o ==> choose(i) != Undefined
    ensures ok ==> forall i :: i in graph.source && graph.source[i] == o ==> graph.Snapshot().StrategyOf(i) == choose(i)
    ensures forall i :: i in graph.source && graph.source[i] != o ==> graph.Snapshot().StrategyOf(i) == old(graph.Snapshot()).StrategyOf(i)
  {
    ghost var g := graph.Snapshot();
    ReadersListed(g, o);
    var connections := graph.Snapshot().Sinks(o);
    var k := 0;
    while k < |connections|
      invariant k <= |connections| && graph.Valid() && OnlyStrategies(g, graph.Snapshot())
      invariant forall j :: 0 <= j < k ==> ChosenAt(graph.Snapshot(), choose, connections[j])
      invariant forall i :: i in graph.source && graph.source[i] != o ==> graph.Snapshot().StrategyOf(i) == g.StrategyOf(i)
    {
      assert connections[k] in connections;
      if choose(connections[k]) == Undefined {
        return false;
      }
      OthersDiffer(connections, k);
      SelectForEdge(graph, o, k, choose(connections[k]));
      k := k + 1;
    }
    AllChosen(graph.Snapshot(), choose, connections);
    ok := true;
  }

  ghost predicate ChosenAt(g: Net, choose: InSlot -> EdgeStrategy, i: InSlot) {
    choose(i) != Undefined && g.StrategyOf(i) == choose(i)
  }

  lemma {:induction false} ReadersListed(g: Net, o: OutSlot)
    requires g.Linked()
    ensures NoDup(g.Sinks(o)) && forall i :: i in g.Sinks(o) <==> i in g.source && g.source[i] == o
  {
    assert g.SinksOK(o);
    forall i | i in g.source && g.source[i] == o
      ensures i in g.Sinks(o)
    {
      assert g.SourceOK(i);
    }
  }

  lemma {:induction false} AllChosen(g: Net, choose: InSlot -> EdgeStrategy, s: seq<InSlot>)
    requires forall j :: 0 <= j < |s| ==> ChosenAt(g, choose, s[j])
    ensures forall i :: i in s ==> ChosenAt(g, choose, i)
  {
    forall i | i in s
      ensures ChosenAt(g, choose, i)
    {
      assert s[IndexOf(s, i)] == i;
    }
  }

  method SelectForEdge(graph: Graph, o: OutSlot, k: nat, s: EdgeStrategy)
    requires graph.Valid() && k < |graph.Snapshot().Sinks(o)|
    modifies graph`strategies
    ensures graph.Valid() && OnlyStrategies(old(graph.Snapshot()), graph.Snapshot())
    ensures graph.Snapshot().StrategyOf(graph.Snapshot().Sinks(o)[k]) == s
    ensures SameEdgesBut(old(graph.Snapshot()), graph.Snapshot(), graph.Snapshot().Sinks(o)[k])
  {
    ghost var g := graph.Snapshot();
    assert g.SinksOK(o);
    WithStrategyKeeps(g, o, k, s);
    EdgesKeepValid(g, g.WithStrategy(o, k, s), graph.inputIds, graph.outputIds, graph.nextGuid);
    graph.SetEdgeStrategy(o, k, s);
  }

  lemma {:induction false} OthersDiffer(s: seq<InSlot>, k: nat)
    requires NoDup(s) && k < |s|
    ensures forall j :: 0 <= j < k ==> s[j] != s[k]
  {
    forall j | 0 <= j < k
      ensures s[j] != s[k]
    {
      NoDupDistinct(s, j, k);
    }
  }

  /** The output slots of one layer in turn. */
  method SelectForLayer(graph: Graph, l: LayerId, choose: InSlot -> EdgeStrategy) returns (ok: bool)
    requires graph.Valid() && l in graph.info
    modifies graph`strategies
    ensures graph.Valid() && OnlyStrategies(old(graph.Snapshot()), graph.Snapshot())
    ensures ok <==> forall i :: i in graph.source && graph.source[i].layer == l ==> choose(i) != Undefined
    ensures ok ==> forall i :: i in graph.source && graph.source[i].layer == l ==> graph.Snapshot().StrategyOf(i) == choose(i)
    ensures forall i :: i in graph.source && graph.source[i].layer != l ==> graph.Snapshot().StrategyOf(i) == old(graph.Snapshot()).StrategyOf(i)
  {
    ghost var g := graph.Snapshot();
    var j := 0;
    while j < graph.info[l].numOut
      invariant j <= g.info[l].numOut && graph.Valid() && OnlyStrategies(g, graph.Snapshot())
      invariant forall i :: i in graph.source && graph.source[i].layer == l && graph.source[i].index < j ==>
        choose(i) != Undefined && graph.Snapshot().StrategyOf(i) == choose(i)
      invariant forall i :: i in graph.source && graph.source[i].layer != l ==> graph.Snapshot().StrategyOf(i) == g.StrategyOf(i)
    {
      ok := SelectForSlot(graph, OutSlot(l, j), choose);
      if !ok {
        return;
      }
      j := j + 1;
    }
    forall i | i in graph.source && graph.source[i].layer == l
      ensures choose(i) != Undefined && graph.Snapshot().StrategyOf(i) == choose(i)
    {
      assert g.SourceOK(i);
    }
    ok := true;
  }

  /** The edges out of the first k layers have a strategy, if one was found for all of them. */
  ghost predicate SelectedUpTo(g: Net, choose: InSlot -> EdgeStrategy, ok: bool, k: nat) {
    && (ok <==> forall i :: i in g.source && Pos(g, g.source[i].layer) < k ==> choose(i) != Undefined)
    && (ok ==> forall i :: i in g.source && Pos(g, g.source[i].layer) < k ==> g.StrategyOf(i) == choose(i))
  }

  lemma {:induction false} SelectedNext(g: Net, h: Net, choose: InSlot -> EdgeStrategy, ok: bool, here: bool, k: nat, k': nat)
    requires g.Valid() && OnlyStrategies(g, h) && SelectedUpTo(g, choose, ok, k) && k < |g.layers| && k' == k + 1
    requires here <==> forall i :: i in h.source && h.source[i].layer == g.layers[k] ==> choose(i) != Undefined
    requires here ==> forall i :: i in h.source && h.source[i].layer == g.layers[k] ==> h.StrategyOf(i) == choose(i)
    requires forall i :: i in h.source && h.source[i].layer != g.layers[k] ==> h.StrategyOf(i) == g.StrategyOf(i)
    ensures SelectedUpTo(h, choose, ok && here, k')
  {
    IndexOfUnique(g.layers, k);
    forall i | i in h.source
      ensures Pos(h, h.source[i].layer) < k' <==> Pos(g, g.source[i].layer) < k || g.source[i].layer == g.layers[k]
    {
      assert g.SourceOK(i) && g.source[i].layer in g.layers;
    }
  }

  /** SelectTensorHandleStrategy: choose is what comes out of weighing the factories. A layer with an edge that has no
      strategy is an error; the walk goes on with the next layer. */
  method SelectStrategies(graph: Graph, choose: InSlot -> EdgeStrategy) returns (ok: bool)
    requires graph.Valid()
    modifies graph`strategies
    ensures graph.Valid() && OnlyStrategies(old(graph.Snapshot()), graph.Snapshot())
    ensures ok <==> forall i :: i in graph.source ==> choose(i) != Undefined
    ensures ok ==> forall i :: i in graph.source ==> graph.Snapshot().StrategyOf(i) == choose(i)
  {
    ghost var g := graph.Snapshot();
    ok := true;
    var k: nat := 0;
    while k < |graph.layers|
      invariant k <= |g.layers| && graph.Valid() && OnlyStrategies(g, graph.Snapshot())
      invariant SelectedUpTo(graph.Snapshot(), choose, ok, k)
    {
      ghost var h := graph.Snapshot();
      assert graph.layers[k] in graph.layers;
      var here := SelectForLayer(graph, graph.layers[k], choose);
      SelectedNext(h, graph.Snapshot(), choose, ok, here, k, k + 1);
      ok := ok && here;
      k := k + 1;
    }
    forall i | i in graph.source
      ensures Pos(graph.Snapshot(), graph.source[i].layer) < k
    {
      assert g.SourceOK(i) && g.source[i].layer in g.layers;
    }
  }

  /** No edge between layers that are neither copies nor imports is to be exported. */
  ghost predicate NothingExported(g: Net, choose: InSlot -> EdgeStrategy) {
    forall i :: Ordinary(g, i) ==> choose(i) != ExportToTarget
  }

  /** Optimize brings in MemImport layers exactly if some edge between layers that are neither copies nor imports is to be
      exported. */
  lemma {:induction false} ImportsExactly(g: Net, h: Net, choose: InSlot -> EdgeStrategy, owner: map<LayerId, InSlot>, done: set<InSlot>)
    requires g.Valid() && CompatState(g, h, owner, done) && (forall i :: i in done <==> Needs(g, i))
    requires forall i :: i in g.source ==> g.StrategyOf(i) == choose(i)
    ensures Connections.NoImports(h) <==> Connections.NoImports(g) && NothingExported(g, choose)
  {
    if Connections.NoImports(h) {
      EdgesServed(g, h, owner, done);
      forall i | Ordinary(g, i)
        ensures choose(i) != ExportToTarget
      {
        assert EdgeServed(g, h, i);
      }
    }
    if Connections.NoImports(g) && NothingExported(g, choose) {
      forall l | l in h.info
        ensures !h.info[l].kind.MemImport?
      {
        assert NewLayerOK(g, h, owner, done, l);
      }
    }
  }

  lemma {:induction false} StrategiesKeepWalked(g: Net, h: Net)
    requires OnlyStrategies(g, h)
    ensures Sorted(g) ==> Sorted(h)
    ensures InputsRead(g) ==> InputsRead(h)
  {
    assert Ranks(h) == Ranks(g);
    if InputsRead(g) {
      forall l | l in h.info && h.info[l].kind.Input?
        ensures HasReader(h, l)
      {
        assert HasReader(g, l);
      }
    }
  }

  /** The last pass, and the debug layers if they are wanted. */
  method Prune(graph: Graph, optimizations: nat, debug: bool) returns (r: Result<()>)
    requires graph.Valid() && optimizations > 0 && |graph.layers| < 0xFFFF_FFFF
    requires graph.layersInOrder ==> Sorted(graph.Snapshot())
    requires |graph.layers| < 2 ==> Acyclic(graph.Snapshot())
    requires debug ==> NoStrategies(graph.Snapshot())
    modifies graph`layers, graph`info, graph`overridden, graph`source, graph`sinks, graph`strategies, graph`inputIds, graph`outputIds
    modifies graph`priority, graph`visiting, graph`layersInOrder, graph`nextGuid
    ensures graph.Valid()
    ensures r.Ok? <==> Acyclic(old(graph.Snapshot()))
    ensures r.Ok? ==> Sorted(graph.Snapshot()) && InputsRead(graph.Snapshot()) && ReturnsSame(old(graph.Snapshot()), graph.Snapshot())
    ensures r.Ok? && debug ==> WatchedFrom(graph.Snapshot(), 0)
  {
    ghost var g := graph.Snapshot();
    r := Pass(graph, optimizations);
    if r.Err? {
      return;
    }
    ghost var m := graph.Snapshot();
    PrunedInputsRead(g, m);
    PruningReturnsSame(g, m);
    if debug {
      DebugPass(graph);
      WatchedInputsRead(graph.Snapshot());
      ReturnsSameTransitive(g, m, graph.Snapshot());
    }
  }

  /** What the strategies and their layers make of g. */
  ghost predicate MadeCompatible(g: Net, h: Net, choose: InSlot -> EdgeStrategy) {
    && Sorted(h) && InputsRead(h) && ReturnsSame(g, h) && NothingLeft(h)
    && (Connections.NoImports(h) <==> Connections.NoImports(g) && NothingExported(g, choose))
  }

  lemma {:induction false} CompatibleMade(g: Net, m: Net, h: Net, choose: InSlot -> EdgeStrategy, owner: map<LayerId, InSlot>, done: set<InSlot>)
    requires g.Valid() && m.Valid() && h.Valid() && OnlyStrategies(g, m) && InputsRead(g) && Sorted(g) && Sorted(h)
    requires CompatState(m, h, owner, done) && (forall i :: i in done <==> Needs(m, i))
    requires forall i :: i in m.source ==> m.StrategyOf(i) == choose(i)
    ensures MadeCompatible(g, h, choose)
  {
    StrategiesKeepWalked(g, m);
    CompatibilityKeepsInputsRead(m, h, owner, done);
    CompatibleReturnsSame(g, m, h, owner, done);
    ImportsExactly(m, h, choose, owner, done);
    EdgesServed(m, h, owner, done);
    AllServed(m, h, owner, done);
    NeedsSame(g, m, choose);
  }

  lemma {:induction false} CompatibleReturnsSame(g: Net, m: Net, h: Net, owner: map<LayerId, InSlot>, done: set<InSlot>)
    requires g.Valid() && m.Valid() && h.Valid() && OnlyStrategies(g, m) && Sorted(g) && Sorted(h) && CompatState(m, h, owner, done)
    ensures ReturnsSame(g, h)
  {
    SortedIsAcyclic(g);
    SortedIsAcyclic(h);
    StrategiesReturnSame(g, m);
    CompatibilityReturnsSame(m, h, owner, done);
    ReturnsSameTransitive(g, m, h);
  }

  lemma {:induction false} NeedsSame(g: Net, m: Net, choose: InSlot -> EdgeStrategy)
    requires OnlyStrategies(g, m)
    ensures Connections.NoImports(m) <==> Connections.NoImports(g)
    ensures NothingExported(m, choose) <==> NothingExported(g, choose)
  {
  }

  /** The strategies, and the layers they ask for. */
  method MakeCompatible(graph: Graph, choose: InSlot -> EdgeStrategy) returns (r: Result<()>)
    requires graph.Valid() && Sorted(graph.Snapshot()) && InputsRead(graph.Snapshot())
    modifies graph`layers, graph`info, graph`nextGuid, graph`inputIds, graph`outputIds, graph`source, graph`sinks, graph`strategies
    ensures graph.Valid()
    ensures r.Ok? <==> forall i :: i in old(graph.source) ==> choose(i) != Undefined
    ensures r.Ok? ==> MadeCompatible(old(graph.Snapshot()), graph.Snapshot(), choose)
  {
    ghost var g := graph.Snapshot();
    var ok := SelectStrategies(graph, choose);
    if !ok {
      return Err(InvalidArgument);
    }
    ghost var m := graph.Snapshot();
    StrategiesKeepWalked(g, m);
    ghost var owner, done := AddCompatibilityLayers(graph);
    CompatibleMade(g, m, graph.Snapshot(), choose, owner, done);
    return Ok(());
  }

  /** The end of Optimize. It fails exactly on a cycle, or if an edge has no strategy. */
  method FinishOptimizing(graph: Graph, optimizations: nat, debug: bool, choose: InSlot -> EdgeStrategy) returns (r: Result<()>, ghost pruned: Net)
    requires graph.Valid() && optimizations > 0 && |graph.layers| < 0xFFFF_FFFF
    requires graph.layersInOrder ==> Sorted(graph.Snapshot())
    requires |graph.layers| < 2 ==> Acyclic(graph.Snapshot())
    requires debug ==> NoStrategies(graph.Snapshot())
    modifies graph`layers, graph`info, graph`overridden, graph`source, graph`sinks, graph`strategies, graph`inputIds, graph`outputIds
    modifies graph`priority, graph`visiting, graph`layersInOrder, graph`nextGuid
    ensures graph.Valid()
    ensures r.Ok? <==> Acyclic(old(graph.Snapshot())) && forall i :: i in pruned.source ==> choose(i) != Undefined
    ensures r.Ok? ==> ReturnsSame(old(graph.Snapshot()), graph.Snapshot()) && MadeCompatible(pruned, graph.Snapshot(), choose)
    ensures r.Ok? && debug ==> WatchedFrom(pruned, 0)
  {
    ghost var g := graph.Snapshot();
    r := Prune(graph, optimizations, debug);
    pruned := graph.Snapshot();
    if r.Err? {
      return;
    }
    r := MakeCompatible(graph, choose);
    if r.Ok? {
      ReturnsSameTransitive(g, pruned, graph.Snapshot());
    }
  }
}
