/** Layers behind the output slots of a layer: debug layers, which pass on what they see, and conversions. */
module NetworkUtils {
  import opened Sequences
  import opened NetGraph
  import opened Evaluation
  import opened Ordering
  import opened Rewrites
  import opened LayerEdits
  import opened GraphModel

  /** The new layer behind each of some output slots of a layer, by the slot's index. */
  type Taps = map<nat, LayerId>

  /** Layer n of h is new, reads only output slot o, is its only reader, and has taken over o's readers. */
  ghost predicate IsTap(g: Net, h: Net, o: OutSlot, n: LayerId, li: LayerInfo) {
    && n !in g.info && n in h.info && h.info[n] == li
    && InSlot(n, 0) in h.source && h.source[InSlot(n, 0)] == o
    && h.Sinks(o) == [InSlot(n, 0)] && h.Sinks(OutSlot(n, 0)) == g.Sinks(o)
  }

  /** Where input slot i reads in h. */
  ghost predicate Retapped(g: Net, h: Net, l: LayerId, taps: Taps, i: InSlot) {
    if i in g.source then
      && i in h.source
      && if g.source[i].layer == l && g.source[i].index in taps
         then h.source[i] == OutSlot(taps[g.source[i].index], 0)
         else h.source[i] == g.source[i] && h.StrategyOf(i) == g.StrategyOf(i)
    else
      i in h.source ==> i.index == 0 && i.layer in taps.Values
  }

  /** The output slots of l in taps have a new layer each; nothing else has changed. */
  ghost predicate Tapped(g: Net, h: Net, l: LayerId, taps: Taps, li: LayerInfo) {
    && KeepsLayers(g, h)
    && (forall n :: n in h.info && n !in g.info ==> n in taps.Values)
    && (forall k :: k in taps ==> IsTap(g, h, OutSlot(l, k), taps[k], li))
    && (forall i :: Retapped(g, h, l, taps, i))
    && (forall p: OutSlot :: p.layer in g.info && !(p.layer == l && p.index in taps) ==> h.Sinks(p) == g.Sinks(p))
  }

  lemma {:induction false} TapStays(g: Net, h: Net, h': Net, o: OutSlot, n: LayerId, li: LayerInfo, p: OutSlot, q: nat, m: LayerId)
    requires h.Linked() && p != o && p.layer != n && IsTap(g, h, o, n, li) && NewAfter(h, h', p, q, m, li)
    requires h'.Linked()
    ensures IsTap(g, h', o, n, li)
  {
    assert h.SourceOK(InSlot(n, 0));
    assert h'.SinksOK(o) && h.SinksOK(o) && h'.SinksOK(OutSlot(n, 0)) && h.SinksOK(OutSlot(n, 0));
  }

  lemma {:induction false} RetappedNext(g: Net, h: Net, h': Net, l: LayerId, taps: Taps, li: LayerInfo, k: nat, q: nat, m: LayerId, i: InSlot)
    requires Retapped(g, h, l, taps, i) && g.SourceOK(i) && k !in taps
    requires forall n :: n in taps.Values ==> n !in g.info && n in h.info
    requires KeepsLayers(g, h) && l in g.info && NewAfter(h, h', OutSlot(l, k), q, m, li)
    ensures Retapped(g, h', l, taps[k := m], i)
  {
    var taps' := taps[k := m];
    assert taps'.Values == taps.Values + {m} by {
      assert taps'[k] == m;
      assert forall j :: j in taps ==> taps'[j] == taps[j];
    }
    if i in g.source && g.source[i].layer == l && g.source[i].index in taps {
      assert taps[g.source[i].index] in taps.Values;
    }
  }

  lemma {:induction false} TapIsNew(g: Net, h: Net, l: LayerId, taps: Taps, li: LayerInfo, n: LayerId)
    requires Tapped(g, h, l, taps, li)
    ensures n in taps.Values ==> n !in g.info && n in h.info && h.info[n] == li && InSlot(n, 0) in h.source && h.source[InSlot(n, 0)].layer == l
  {
    if n in taps.Values {
      var k :| k in taps && taps[k] == n;
      assert IsTap(g, h, OutSlot(l, k), taps[k], li);
    }
  }

  lemma {:induction false} TappedNext(g: Net, h: Net, h': Net, l: LayerId, taps: Taps, li: LayerInfo, k: nat, q: nat, m: LayerId)
    requires g.Valid() && h.Linked() && h'.Linked() && l in g.info && Tapped(g, h, l, taps, li) && k !in taps
    requires NewAfter(h, h', OutSlot(l, k), q, m, li)
    ensures Tapped(g, h', l, taps[k := m], li)
  {
    var taps' := taps[k := m];
    TapValues(taps, k, m);
    forall j | j in taps'
      ensures IsTap(g, h', OutSlot(l, j), taps'[j], li)
    {
      TapNext(g, h, h', l, taps, li, k, q, m, j);
    }
    forall i
      ensures Retapped(g, h', l, taps', i)
    {
      assert g.SourceOK(i) && Retapped(g, h, l, taps, i);
      TapsAreNew(g, h, l, taps, li);
      RetappedNext(g, h, h', l, taps, li, k, q, m, i);
    }
  }

  lemma {:induction false} TapsAreNew(g: Net, h: Net, l: LayerId, taps: Taps, li: LayerInfo)
    requires Tapped(g, h, l, taps, li)
    ensures forall n :: n in taps.Values ==> n !in g.info && n in h.info
  {
    forall n | n in taps.Values
      ensures n !in g.info && n in h.info
    {
      TapIsNew(g, h, l, taps, li, n);
    }
  }

  lemma {:induction false} TapNext(g: Net, h: Net, h': Net, l: LayerId, taps: Taps, li: LayerInfo, k: nat, q: nat, m: LayerId, j: nat)
    requires h.Linked() && h'.Linked() && l in g.info && Tapped(g, h, l, taps, li) && k !in taps && (j in taps || j == k)
    requires NewAfter(h, h', OutSlot(l, k), q, m, li)
    ensures IsTap(g, h', OutSlot(l, j), taps[k := m][j], li)
  {
    if j != k {
      assert taps[j] in taps.Values && IsTap(g, h, OutSlot(l, j), taps[j], li);
      TapStays(g, h, h', OutSlot(l, j), taps[j], li, OutSlot(l, k), q, m);
    }
  }

  lemma {:induction false} TapValues(taps: Taps, k: nat, m: LayerId)
    requires k !in taps
    ensures taps[k := m].Values == taps.Values + {m}
  {
    assert taps[k := m][k] == m;
    assert forall j :: j in taps ==> taps[k := m][j] == taps[j];
  }

  lemma {:induction false} TappedStart(g: Net, l: LayerId, li: LayerInfo)
    ensures Tapped(g, g, l, map[], li)
  {
  }

  /** The next output slot is still as it was. */
  lemma {:induction false} NextUnassigned(g: Net, h: Net, l: LayerId, taps: Taps, li: LayerInfo, k: nat)
    requires g.Linked() && h.Linked() && l in g.info && Tapped(g, h, l, taps, li) && k !in taps && Unassigned(g, OutSlot(l, k))
    ensures Unassigned(h, OutSlot(l, k))
  {
    var o := OutSlot(l, k);
    forall i | i in h.source && h.source[i] == o
      ensures h.StrategyOf(i) == Undefined
    {
      assert h.SourceOK(i) && g.SinksOK(o) && Retapped(g, h, l, taps, i);
      UnassignedReader(g, o, i);
    }
    UnassignedByReaders(h, o);
  }

  /** No edge has a strategy yet. */
  ghost predicate NoStrategies(g: Net) {
    forall i :: i in g.source ==> g.StrategyOf(i) == Undefined
  }

  /** Up to layer l the list is the same. */
  ghost predicate SamePrefix(g: Net, h: Net, l: LayerId) {
    Pos(g, l) < |g.layers| && Pos(g, l) < |h.layers| && h.layers[..Pos(g, l) + 1] == g.layers[..Pos(g, l) + 1]
  }

  /** A layer put behind l is listed behind l. */
  lemma {:induction false} PrefixKept(g: Net, h: Net, o: OutSlot, q: nat, n: LayerId, li: LayerInfo)
    requires g.Valid() && h.Valid() && g.IsOut(o) && NewAfter(g, h, o, q, n, li) && Forward(h)
    ensures SamePrefix(g, h, o.layer)
  {
    assert o.layer in g.layers && InSlot(n, 0) in h.source;
    assert n !in g.layers;
    PrefixBefore(g.layers, h.layers, q, n, o.layer);
  }

  lemma {:induction false} PrefixBefore(s: seq<LayerId>, t: seq<LayerId>, q: nat, n: LayerId, x: LayerId)
    requires NoDup(s) && NoDup(t) && q <= |s| && t == InsertAt(s, q, n) && x in s && n !in s && IndexOf(t, x) < IndexOf(t, n)
    ensures IndexOf(s, x) < |t| && t[..IndexOf(s, x) + 1] == s[..IndexOf(s, x) + 1]
  {
    assert t[q] == n;
    IndexOfUnique(t, q);
    var k := IndexOf(t, x);
    assert k < q;
    assert t[k] == s[k];
    IndexOfUnique(s, k);
  }

  lemma {:induction false} PrefixesCompose(g: Net, h: Net, k: Net, l: LayerId)
    requires NoDup(h.layers) && SamePrefix(g, h, l) && SamePrefix(h, k, l) && l in g.layers
    ensures SamePrefix(g, k, l)
  {
    var p := Pos(g, l);
    assert h.layers[p] == h.layers[..p + 1][p] && g.layers[p] == g.layers[..p + 1][p];
    IndexOfUnique(h.layers, p);
  }

  /** One more output slot of l gets a layer. */
  method Tap(graph: Graph, l: LayerId, k: nat, li: LayerInfo, ghost g: Net, ghost taps: Taps) returns (n: LayerId)
    requires graph.Valid() && g.Valid() && l in g.info && k < g.info[l].numOut && Unassigned(g, OutSlot(l, k))
    requires li.WellShaped() && li.Rank() == 1 && li.numIn == 1 && li.numOut == 1
    requires Tapped(g, graph.Snapshot(), l, taps, li) && k !in taps && (Sorted(g) ==> Sorted(graph.Snapshot()))
    modifies graph`layers, graph`info, graph`nextGuid, graph`inputIds, graph`outputIds, graph`source, graph`sinks, graph`strategies
    ensures graph.Valid() && Tapped(g, graph.Snapshot(), l, taps[k := n], li) && (Sorted(g) ==> Sorted(graph.Snapshot()))
    ensures NoStrategies(old(graph.Snapshot())) ==> NoStrategies(graph.Snapshot())
    ensures Sorted(g) ==> SamePrefix(old(graph.Snapshot()), graph.Snapshot(), l)
  {
    ghost var h := graph.Snapshot();
    ghost var r, q;
    NextUnassigned(g, h, l, taps, li, k);
    n, r, q := graph.InsertNewLayerAfter(OutSlot(l, k), li);
    TappedNext(g, h, graph.Snapshot(), l, taps, li, k, q, n);
    if Sorted(g) {
      PrefixKept(h, graph.Snapshot(), OutSlot(l, k), q, n, li);
    }
  }

  /** Debug layers run on the reference backend. */
  function DebugInfo(): LayerInfo {
    LayerInfo(Debug, 1, 1, 0, "CpuRef")
  }

  /** The k-th debug layer watches the k-th output slot. */
  ghost function AsTaps(debugs: seq<LayerId>): (r: Taps)
    ensures forall k: nat :: k in r <==> k < |debugs|
    ensures forall k :: k in r ==> r[k] == debugs[k]
  {
    map k: nat | k < |debugs| :: debugs[k]
  }

  lemma {:induction false} AsTapsStart()
    ensures AsTaps([]) == map[]
  {
  }

  lemma {:induction false} AsTapsNext(debugs: seq<LayerId>, n: LayerId)
    ensures AsTaps(debugs + [n]) == AsTaps(debugs)[|debugs| := n] && |debugs| !in AsTaps(debugs)
  {
  }

  /** Layer n of h is a new Debug layer on the reference backend, the only reader of slot o, and has o's readers. */
  ghost predicate WatchedBy(g: Net, h: Net, o: OutSlot, n: LayerId) {
    && n !in g.info && n in h.info && h.info[n].kind == Debug && h.info[n].numIn == 1 && h.info[n].numOut == 1
    && h.info[n].backend == "CpuRef" && InSlot(n, 0) in h.source && h.source[InSlot(n, 0)] == o
    && h.Sinks(o) == [InSlot(n, 0)] && h.Sinks(OutSlot(n, 0)) == g.Sinks(o)
  }

  lemma {:induction false} AllWatched(g: Net, h: Net, l: LayerId, debugs: seq<LayerId>)
    requires Tapped(g, h, l, AsTaps(debugs), DebugInfo())
    ensures forall k: nat :: k < |debugs| ==> WatchedBy(g, h, OutSlot(l, k), debugs[k])
  {
    forall k: nat | k < |debugs|
      ensures WatchedBy(g, h, OutSlot(l, k), debugs[k])
    {
      assert IsTap(g, h, OutSlot(l, k), AsTaps(debugs)[k], DebugInfo());
    }
  }

  /** InsertDebugLayerAfter, before strategies are assigned. */
  method InsertDebugLayerAfter(graph: Graph, l: LayerId) returns (debugs: seq<LayerId>)
    requires graph.Valid() && l in graph.info
    requires forall k: nat :: Unassigned(graph.Snapshot(), OutSlot(l, k))
    modifies graph`layers, graph`info, graph`nextGuid, graph`inputIds, graph`outputIds, graph`source, graph`sinks, graph`strategies
    ensures graph.Valid() && |debugs| == old(graph.info)[l].numOut
    ensures Tapped(old(graph.Snapshot()), graph.Snapshot(), l, AsTaps(debugs), DebugInfo())
    ensures forall k: nat :: k < |debugs| ==> WatchedBy(old(graph.Snapshot()), graph.Snapshot(), OutSlot(l, k), debugs[k])
    ensures Sorted(old(graph.Snapshot())) ==> Sorted(graph.Snapshot()) && SamePrefix(old(graph.Snapshot()), graph.Snapshot(), l)
    ensures NoStrategies(old(graph.Snapshot())) ==> NoStrategies(graph.Snapshot())
  {
    ghost var g := graph.Snapshot();
    debugs := [];
    assert l in g.layers;
    TappedStart(g, l, DebugInfo());
    AsTapsStart();
    var slots := graph.info[l].numOut;
    while |debugs| < slots
      invariant graph.Valid() && |debugs| <= slots && Tapped(g, graph.Snapshot(), l, AsTaps(debugs), DebugInfo())
      invariant Sorted(g) ==> Sorted(graph.Snapshot()) && SamePrefix(g, graph.Snapshot(), l)
      invariant NoStrategies(g) ==> NoStrategies(graph.Snapshot())
    {
      ghost var taps, h := AsTaps(debugs), graph.Snapshot();
      var n := Tap(graph, l, |debugs|, DebugInfo(), g, taps);
      AsTapsNext(debugs, n);
      if Sorted(g) {
        PrefixesCompose(g, h, graph.Snapshot(), l);
      }
      debugs := debugs + [n];
    }
    AllWatched(g, graph.Snapshot(), l, debugs);
  }

  lemma {:induction false} TapsSplice(g: Net, h: Net, l: LayerId, taps: Taps, li: LayerInfo)
    requires g.Valid() && h.Linked() && l in g.info && Tapped(g, h, l, taps, li) && IsIdentity(li.kind) && li.numIn == 1
    ensures Spliced(g, h)
  {
    forall i | g.IsIn(i)
      ensures SplicedAt(g, h, i)
    {
      assert Retapped(g, h, l, taps, i) && g.SourceOK(i) && h.SourceOK(i);
      if i in g.source && g.source[i].layer == l && g.source[i].index in taps {
        assert IsTap(g, h, g.source[i], taps[g.source[i].index], li);
      }
      TapIsNew(g, h, l, taps, li, i.layer);
    }
    forall i | i in h.source && i.layer !in g.info
      ensures i.index == 0 && h.source[i].layer in g.info
    {
      assert Retapped(g, h, l, taps, i) && g.SourceOK(i);
      TapIsNew(g, h, l, taps, li, i.layer);
    }
  }

  /** Watching a layer changes no value: every output slot of the old graph carries what it did, every
      layer receives what it did, and an acyclic graph stays acyclic. */
  lemma {:induction false} DebugKeepsMeaning(g: Net, h: Net, l: LayerId, debugs: seq<LayerId>, f: Sem)
    requires g.Valid() && h.Valid() && l in g.info && Tapped(g, h, l, AsTaps(debugs), DebugInfo()) && Acyclic(g)
    ensures Acyclic(h)
    ensures forall o :: g.IsOut(o) ==> h.IsOut(o) && Meaning(h, f)[o] == Meaning(g, f)[o]
    ensures forall m :: m in g.info && g.info[m].numIn > 0 ==> Reaching(h, f, m) == Reaching(g, f, m)
    ensures forall k :: 0 <= k < |debugs| && g.IsOut(OutSlot(l, k)) ==> Reaching(h, f, debugs[k]) == Meaning(g, f)[OutSlot(l, k)]
  {
    TapsSplice(g, h, l, AsTaps(debugs), DebugInfo());
    SplicingKeepsAcyclic(g, h);
    SplicingKeepsMeaning(g, h);
    SameMeaning(g, h, f);
    forall k | 0 <= k < |debugs| && g.IsOut(OutSlot(l, k))
      ensures Reaching(h, f, debugs[k]) == Meaning(g, f)[OutSlot(l, k)]
    {
      assert k in AsTaps(debugs) && IsTap(g, h, OutSlot(l, k), AsTaps(debugs)[k], DebugInfo());
    }
  }
}
