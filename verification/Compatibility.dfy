/** Copy and import layers between layers on different backends. */
module Compatibility {
  import opened Sequences
  import opened NetGraph
  import opened Evaluation
  import opened Ordering
  import opened Rewrites
  import opened LayerEdits
  import opened GraphModel

  /** Copy and import layers need no further help. */
  predicate MayNeed(g: Net, l: LayerId) {
    l in g.info && !g.info[l].kind.MemCopy? && !g.info[l].kind.MemImport?
  }

  predicate IsCompatibilityStrategy(s: EdgeStrategy) {
    s.CopyToTarget? || s.ExportToTarget?
  }

  /** The edge into i has to go through a new layer. */
  ghost predicate Needs(g: Net, i: InSlot) {
    i in g.source && MayNeed(g, g.source[i].layer) && MayNeed(g, i.layer) && IsCompatibilityStrategy(g.StrategyOf(i))
  }

  /** The layer that serves strategy s towards a layer on the given backend. */
  function BridgeInfo(s: EdgeStrategy, backend: string): LayerInfo {
    LayerInfo(if s.CopyToTarget? then MemCopy else MemImport, 1, 1, 0, backend)
  }

  /** h is g with layer n, of type li, on the edge into i; both halves are directly compatible. */
  ghost predicate Bridged(g: Net, h: Net, i: InSlot, n: LayerId, li: LayerInfo) {
    && i in g.source && n !in g.info && h.info == g.info[n := li]
    && h.source == g.source[InSlot(n, 0) := g.source[i]][i := OutSlot(n, 0)]
    && h.StrategyOf(i) == DirectCompatibility && h.StrategyOf(InSlot(n, 0)) == DirectCompatibility
    && (forall j :: j in g.source && j != i ==> h.StrategyOf(j) == g.StrategyOf(j))
  }

  /** The edge of g0 into i now runs through layer n of g. */
  ghost predicate RunsThrough(g0: Net, g: Net, i: InSlot, n: LayerId) {
    && Needs(g0, i) && n !in g0.info && n in g.info
    && g.info[n] == BridgeInfo(g0.StrategyOf(i), g0.info[i.layer].backend)
    && i in g.source && g.source[i] == OutSlot(n, 0)
    && InSlot(n, 0) in g.source && g.source[InSlot(n, 0)] == g0.source[i]
    && g.StrategyOf(i) == DirectCompatibility && g.StrategyOf(InSlot(n, 0)) == DirectCompatibility
  }

  ghost predicate Untouched(g0: Net, g: Net, i: InSlot) {
    i in g0.source ==> i in g.source && g.source[i] == g0.source[i] && g.StrategyOf(i) == g0.StrategyOf(i)
  }

  /** The layers of g that g0 lacks are those of owner; each serves the edge it owns. */
  ghost predicate NewLayerOK(g0: Net, g: Net, owner: map<LayerId, InSlot>, done: set<InSlot>, n: LayerId) {
    && (n in g.info && n !in g0.info <==> n in owner)
    && (n in owner ==> owner[n] in done && RunsThrough(g0, g, owner[n], n))
  }

  /** An edge that was done runs through its own new layer; any other edge of g0 is untouched, and
      there are no further edges than those into new layers. */
  ghost predicate EdgeOK(g0: Net, g: Net, owner: map<LayerId, InSlot>, done: set<InSlot>, i: InSlot) {
    if i in done then
      i in g.source && g.source[i].layer in owner && owner[g.source[i].layer] == i
    else
      Untouched(g0, g, i) && (i in g.source ==> i in g0.source || (i.index == 0 && i.layer in owner))
  }

  ghost predicate CompatState(g0: Net, g: Net, owner: map<LayerId, InSlot>, done: set<InSlot>) {
    && KeepsLayers(g0, g)
    && (forall n :: NewLayerOK(g0, g, owner, done, n))
    && (forall i :: EdgeOK(g0, g, owner, done, i))
  }

  lemma {:induction false} CompatStart(g: Net)
    ensures CompatState(g, g, map[], {})
  {
  }

  lemma {:induction false} NewLayerStep(g0: Net, g: Net, h: Net, owner: map<LayerId, InSlot>, done: set<InSlot>, i: InSlot,
                                        n: LayerId, li: LayerInfo, m: LayerId)
    requires NewLayerOK(g0, g, owner, done, m) && EdgeOK(g0, g, owner, done, i) && i !in done && Needs(g0, i)
    requires i.layer in g0.info && n !in g0.info && g0.source[i].layer in g0.info
    requires InSlot(n, 0) !in g.source && li == BridgeInfo(g0.StrategyOf(i), g0.info[i.layer].backend)
    requires Bridged(g, h, i, n, li)
    ensures NewLayerOK(g0, h, owner[n := i], done + {i}, m)
  {
  }

  lemma {:induction false} EdgeStep(g0: Net, g: Net, h: Net, owner: map<LayerId, InSlot>, done: set<InSlot>, i: InSlot,
                                    n: LayerId, li: LayerInfo, j: InSlot)
    requires EdgeOK(g0, g, owner, done, j) && i !in done && n !in owner
    requires InSlot(n, 0) !in g.source && InSlot(n, 0) !in g0.source && InSlot(n, 0) !in done && Bridged(g, h, i, n, li)
    ensures EdgeOK(g0, h, owner[n := i], done + {i}, j)
  {
  }

  lemma {:induction false} CompatStep(g0: Net, g: Net, h: Net, owner: map<LayerId, InSlot>, done: set<InSlot>, i: InSlot, n: LayerId)
    requires g0.Valid() && g.Valid() && CompatState(g0, g, owner, done) && i !in done && Needs(g0, i)
    requires i.layer in g0.info && Bridged(g, h, i, n, BridgeInfo(g0.StrategyOf(i), g0.info[i.layer].backend))
    ensures CompatState(g0, h, owner[n := i], done + {i})
  {
    var li := BridgeInfo(g0.StrategyOf(i), g0.info[i.layer].backend);
    assert g0.SourceOK(i) && g.SourceOK(InSlot(n, 0)) && g0.SourceOK(InSlot(n, 0));
    assert NewLayerOK(g0, g, owner, done, n) && EdgeOK(g0, g, owner, done, i) && EdgeOK(g0, g, owner, done, InSlot(n, 0));
    var owner', done' := owner[n := i], done + {i};
    forall m
      ensures NewLayerOK(g0, h, owner', done', m)
    {
      assert NewLayerOK(g0, g, owner, done, m);
      NewLayerStep(g0, g, h, owner, done, i, n, li, m);
    }
    forall j
      ensures EdgeOK(g0, h, owner', done', j)
    {
      assert EdgeOK(g0, g, owner, done, j);
      EdgeStep(g0, g, h, owner, done, i, n, li, j);
    }
  }

  /** Adding the layers is a splice. */
  lemma {:induction false} CompatSplices(g0: Net, g: Net, owner: map<LayerId, InSlot>, done: set<InSlot>)
    requires g0.Valid() && g.Valid() && CompatState(g0, g, owner, done)
    ensures Spliced(g0, g)
  {
    forall i | g0.IsIn(i)
      ensures SplicedAt(g0, g, i)
    {
      assert EdgeOK(g0, g, owner, done, i) && NewLayerOK(g0, g, owner, done, i.layer);
      if i in done {
        assert NewLayerOK(g0, g, owner, done, g.source[i].layer);
      }
    }
    forall i | i in g.source && i.layer !in g0.info
      ensures i.index == 0 && g.source[i].layer in g0.info
    {
      assert EdgeOK(g0, g, owner, done, i) && NewLayerOK(g0, g, owner, done, i.layer) && g0.SourceOK(i);
      assert NewLayerOK(g0, g, owner, done, g.source[i].layer);
      assert g0.SourceOK(owner[i.layer]);
    }
  }

  lemma {:induction false} OrderKeptTransitive(g: Net, h: Net, k: Net)
    requires OrderKept(g, h) && OrderKept(h, k)
    ensures OrderKept(g, k)
  {
  }

  /** Setting the strategies of the two halves of a bridged edge. */
  lemma {:induction false} BridgeDone(g: Net, a: Net, b: Net, h: Net, i: InSlot, q: nat, n: LayerId, li: LayerInfo)
    requires g.Valid() && i in g.source && NewBefore(g, a, i, q, n, li)
    requires b == a.(strategies := b.strategies) && b.StrategyOf(i) == DirectCompatibility && SameEdgesBut(a, b, i)
    requires h == b.(strategies := h.strategies) && h.StrategyOf(InSlot(n, 0)) == DirectCompatibility && SameEdgesBut(b, h, InSlot(n, 0))
    ensures Bridged(g, h, i, n, li)
  {
    assert g.SourceOK(i) && g.SourceOK(InSlot(n, 0));
  }

  lemma {:induction false} StrategiesKeepSorted(g: Net, h: Net)
    requires h == g.(strategies := h.strategies)
    ensures Sorted(g) ==> Sorted(h)
  {
    assert Ranks(h) == Ranks(g);
  }

  /** The body of the innermost loop, for an edge that needs a layer. */
  method BridgeEdge(graph: Graph, i: InSlot, strategy: EdgeStrategy) returns (n: LayerId)
    requires graph.Valid() && i in graph.source && IsCompatibilityStrategy(strategy)
    modifies graph`layers, graph`info, graph`nextGuid, graph`inputIds, graph`outputIds, graph`source, graph`sinks, graph`strategies
    ensures graph.Valid()
    ensures i.layer in old(graph.info)
    ensures Bridged(old(graph.Snapshot()), graph.Snapshot(), i, n, BridgeInfo(strategy, old(graph.info)[i.layer].backend))
    ensures OrderKept(old(graph.Snapshot()), graph.Snapshot())
    ensures Sorted(old(graph.Snapshot())) ==> Sorted(graph.Snapshot())
  {
    ghost var g := graph.Snapshot();
    assert g.SourceOK(i);
    var li := BridgeInfo(strategy, graph.info[i.layer].backend);
    var o := graph.source[i];
    ghost var r, q;
    n, r, q := graph.InsertNewLayerBefore(i, li);
    ghost var a := graph.Snapshot();
    DirectlyCompatible(graph, OutSlot(n, 0), i);
    ghost var b := graph.Snapshot();
    DirectlyCompatible(graph, o, InSlot(n, 0));
    BridgeDone(g, a, b, graph.Snapshot(), i, q, n, li);
    StrategiesKeepSorted(a, graph.Snapshot());
    ListedKeepsOrder(g, graph.Snapshot(), q, n, li);
  }

  /** Marks the connection from o to i as directly compatible, wherever it is in o's list. */
  method DirectlyCompatible(graph: Graph, o: OutSlot, i: InSlot)
    requires graph.Valid() && i in graph.source && graph.source[i] == o
    modifies graph`strategies
    ensures graph.Valid() && graph.Snapshot() == old(graph.Snapshot()).(strategies := graph.strategies)
    ensures graph.Snapshot().StrategyOf(i) == DirectCompatibility
    ensures SameEdgesBut(old(graph.Snapshot()), graph.Snapshot(), i)
  {
    ghost var g := graph.Snapshot();
    assert g.SourceOK(i) && g.SinksOK(o);
    var k := Find(graph.Snapshot().Sinks(o), i);
    WithStrategyKeeps(g, o, k, DirectCompatibility);
    graph.SetEdgeStrategy(o, k, DirectCompatibility);
    EdgesKeepValid(g, graph.Snapshot(), graph.inputIds, graph.outputIds, graph.nextGuid);
  }

  /** What holds between two edges of the walk. */
  ghost predicate Stage(g0: Net, g: Net, owner: map<LayerId, InSlot>, done: set<InSlot>) {
    g.Valid() && CompatState(g0, g, owner, done) && (Sorted(g0) ==> Sorted(g))
  }

  /** As long as no edge out of o is done, o's connections and strategies are those of g0. */
  lemma {:induction false} ConnectionsAreOld(g0: Net, g: Net, owner: map<LayerId, InSlot>, done: set<InSlot>, o: OutSlot)
    requires g0.Valid() && Stage(g0, g, owner, done) && o.layer in g0.info
    requires forall i :: i in done ==> i in g0.source && g0.source[i] != o
    ensures g.SinksOK(o)
    ensures forall i :: i in g.Sinks(o) <==> i in g0.source && g0.source[i] == o
    ensures forall k :: 0 <= k < |g.Sinks(o)| ==> g.Strategies(o)[k] == g0.StrategyOf(g.Sinks(o)[k])
  {
    assert g.SinksOK(o);
    forall i
      ensures i in g.Sinks(o) <==> i in g0.source && g0.source[i] == o
    {
      assert EdgeOK(g0, g, owner, done, i) && g.SourceOK(i) && NewLayerOK(g0, g, owner, done, i.layer);
      if i in g.source {
        assert NewLayerOK(g0, g, owner, done, g.source[i].layer);
      }
    }
    forall k | 0 <= k < |g.Sinks(o)|
      ensures g.Strategies(o)[k] == g0.StrategyOf(g.Sinks(o)[k])
    {
      assert g.Sinks(o)[k] in g.Sinks(o);
      assert EdgeOK(g0, g, owner, done, g.Sinks(o)[k]);
      IndexOfUnique(g.Sinks(o), k);
    }
  }

  lemma {:induction false} OldEdge(g0: Net, g: Net, owner: map<LayerId, InSlot>, done: set<InSlot>, i: InSlot)
    requires g0.Valid() && Stage(g0, g, owner, done) && i in g0.source && i !in done
    ensures i in g.source && i.layer in g.info && i.layer in g0.info && g.info[i.layer] == g0.info[i.layer]
  {
    assert EdgeOK(g0, g, owner, done, i) && g0.SourceOK(i);
  }

  /** One connection that is not done yet: it gets a layer if it needs one. */
  method BridgeConnection(graph: Graph, i: InSlot, strategy: EdgeStrategy, ghost g0: Net, ghost owner: map<LayerId, InSlot>,
                          ghost done: set<InSlot>)
    returns (ghost owner': map<LayerId, InSlot>, ghost done': set<InSlot>)
    requires graph.Valid() && g0.Valid() && Stage(g0, graph.Snapshot(), owner, done)
    requires i in g0.source && i !in done && MayNeed(g0, g0.source[i].layer) && strategy == g0.StrategyOf(i)
    modifies graph`layers, graph`info, graph`nextGuid, graph`inputIds, graph`outputIds, graph`source, graph`sinks, graph`strategies
    ensures graph.Valid() && Stage(g0, graph.Snapshot(), owner', done')
    ensures OrderKept(old(graph.Snapshot()), graph.Snapshot())
    ensures done' == if Needs(g0, i) then done + {i} else done
  {
    ghost var h := graph.Snapshot();
    OldEdge(g0, h, owner, done, i);
    owner', done' := owner, done;
    if !graph.info[i.layer].kind.MemCopy? && !graph.info[i.layer].kind.MemImport? && IsCompatibilityStrategy(strategy) {
      var n := BridgeEdge(graph, i, strategy);
      CompatStep(g0, h, graph.Snapshot(), owner, done, i, n);
      owner', done' := owner[n := i], done + {i};
    }
  }

  /** The edges that are done once the first c connections of o have been dealt with. */
  ghost predicate DoneSoFar(g0: Net, o: OutSlot, connections: seq<InSlot>, c: nat, done: set<InSlot>, done': set<InSlot>) {
    forall i :: i in done' <==> i in done || (Needs(g0, i) && g0.source[i] == o && IndexOf(connections, i) < c)
  }

  lemma {:induction false} DoneNext(g0: Net, o: OutSlot, connections: seq<InSlot>, c: nat, done: set<InSlot>,
                                    d: set<InSlot>, d': set<InSlot>)
    requires c < |connections| && NoDup(connections) && DoneSoFar(g0, o, connections, c, done, d)
    requires connections[c] in g0.source && g0.source[connections[c]] == o
    requires d' == if Needs(g0, connections[c]) then d + {connections[c]} else d
    ensures DoneSoFar(g0, o, connections, c + 1, done, d')
  {
    IndexOfUnique(connections, c);
  }

  /** One output slot: every edge out of it that needs a layer gets one. */
  method BridgeSlot(graph: Graph, o: OutSlot, ghost g0: Net, ghost owner: map<LayerId, InSlot>, ghost done: set<InSlot>)
    returns (ghost owner': map<LayerId, InSlot>, ghost done': set<InSlot>)
    requires graph.Valid() && g0.Valid() && Stage(g0, graph.Snapshot(), owner, done) && MayNeed(g0, o.layer)
    requires forall i :: i in done ==> i in g0.source && g0.source[i] != o
    modifies graph`layers, graph`info, graph`nextGuid, graph`inputIds, graph`outputIds, graph`source, graph`sinks, graph`strategies
    ensures graph.Valid() && Stage(g0, graph.Snapshot(), owner', done')
    ensures OrderKept(old(graph.Snapshot()), graph.Snapshot())
    ensures forall i :: i in done' <==> i in done || (Needs(g0, i) && g0.source[i] == o)
  {
    ghost var g := graph.Snapshot();
    ConnectionsAreOld(g0, g, owner, done, o);
    var connections := graph.Snapshot().Sinks(o);
    var strategies := graph.Snapshot().Strategies(o);
    owner', done' := owner, done;
    var c := 0;
    while c < |connections|
      invariant c <= |connections| && graph.Valid() && Stage(g0, graph.Snapshot(), owner', done')
      invariant OrderKept(g, graph.Snapshot())
      invariant DoneSoFar(g0, o, connections, c, done, done')
    {
      ghost var h, d := graph.Snapshot(), done';
      IndexOfUnique(connections, c);
      owner', done' := BridgeConnection(graph, connections[c], strategies[c], g0, owner', done');
      OrderKeptTransitive(g, h, graph.Snapshot());
      DoneNext(g0, o, connections, c, done, d, done');
      c := c + 1;
    }
  }

  /** New layers are copy or import layers; the others are those of g0. */
  lemma {:induction false} KindKnown(g0: Net, g: Net, owner: map<LayerId, InSlot>, done: set<InSlot>, l: LayerId)
    requires Stage(g0, g, owner, done) && l in g.info
    ensures MayNeed(g, l) ==> MayNeed(g0, l)
    ensures l in g0.info ==> g.info[l] == g0.info[l]
  {
    assert NewLayerOK(g0, g, owner, done, l);
  }

  /** One layer of the walk: its output slots in turn, unless it is itself a copy or import layer. */
  method BridgeLayer(graph: Graph, src: LayerId, ghost g0: Net, ghost owner: map<LayerId, InSlot>, ghost done: set<InSlot>)
    returns (ghost owner': map<LayerId, InSlot>, ghost done': set<InSlot>)
    requires graph.Valid() && g0.Valid() && Stage(g0, graph.Snapshot(), owner, done) && src in graph.info
    requires forall i :: i in done ==> i in g0.source && g0.source[i].layer != src
    modifies graph`layers, graph`info, graph`nextGuid, graph`inputIds, graph`outputIds, graph`source, graph`sinks, graph`strategies
    ensures graph.Valid() && Stage(g0, graph.Snapshot(), owner', done')
    ensures OrderKept(old(graph.Snapshot()), graph.Snapshot())
    ensures forall i :: i in done' <==> i in done || (Needs(g0, i) && g0.source[i].layer == src)
    ensures src !in g0.info ==> graph.Snapshot() == old(graph.Snapshot())
  {
    ghost var g := graph.Snapshot();
    owner', done' := owner, done;
    KindKnown(g0, g, owner, done, src);
    if graph.info[src].kind.MemCopy? || graph.info[src].kind.MemImport? {
      return;
    }
    var k := 0;
    var slots := graph.info[src].numOut;
    while k < slots
      invariant k <= slots && graph.Valid() && Stage(g0, graph.Snapshot(), owner', done')
      invariant OrderKept(g, graph.Snapshot())
      invariant forall i :: i in done' <==> i in done || (Needs(g0, i) && g0.source[i].layer == src && g0.source[i].index < k)
    {
      ghost var h := graph.Snapshot();
      owner', done' := BridgeSlot(graph, OutSlot(src, k), g0, owner', done');
      OrderKeptTransitive(g, h, graph.Snapshot());
      k := k + 1;
    }
    forall i | Needs(g0, i) && g0.source[i].layer == src
      ensures g0.source[i].index < slots
    {
      assert g0.SourceOK(i);
    }
  }

  /** The walk has passed the first p layers: exactly their edges are done. */
  ghost predicate Passed(g0: Net, g: Net, done: set<InSlot>, p: nat) {
    forall i :: i in done <==> Needs(g0, i) && Pos(g, g0.source[i].layer) < p
  }

  /** The layers of g0 that are still ahead. */
  ghost predicate Ahead(g0: Net, g: Net, todo: set<LayerId>, p: nat) {
    forall l :: l in todo <==> l in g0.info && p <= Pos(g, l)
  }

  /** From position p, occupied by src, on to position p' of h. */
  ghost predicate StepsOn(g: Net, h: Net, src: LayerId, p: nat, p': nat) {
    forall l :: l in g.info ==> (Pos(h, l) < p' <==> Pos(g, l) < p || l == src)
  }

  lemma {:induction false} StepOn(g: Net, h: Net, p: nat, p': nat)
    requires g.Listed() && h.Listed() && OrderKept(g, h) && p < |g.layers|
    requires p' == if p + 1 < |g.layers| then Pos(h, g.layers[p + 1]) else |h.layers|
    ensures StepsOn(g, h, g.layers[p], p, p')
  {
    IndexOfUnique(g.layers, p);
    assert g.layers[p] in g.layers;
    if p + 1 < |g.layers| {
      IndexOfUnique(g.layers, p + 1);
      assert g.layers[p + 1] in g.layers;
    }
    forall l | l in g.info
      ensures Pos(h, l) < p' <==> Pos(g, l) < p || l == g.layers[p]
    {
      assert l in g.layers && l in h.layers;
      assert Pos(g, l) == p ==> l == g.layers[p];
    }
  }

  lemma {:induction false} PassedNext(g0: Net, g: Net, h: Net, d: set<InSlot>, d': set<InSlot>, src: LayerId, p: nat, p': nat)
    requires g0.Valid() && KeepsLayers(g0, g) && Passed(g0, g, d, p) && StepsOn(g, h, src, p, p')
    requires forall i :: i in d' <==> i in d || (Needs(g0, i) && g0.source[i].layer == src)
    ensures Passed(g0, h, d', p')
  {
    forall i
      ensures i in d' <==> Needs(g0, i) && Pos(h, g0.source[i].layer) < p'
    {
      assert g0.SourceOK(i);
    }
  }

  /** One step of the walk, which remembers the next layer before it inserts behind the current one. */
  method WalkOn(graph: Graph, p: nat, ghost g0: Net, ghost owner: map<LayerId, InSlot>, ghost done: set<InSlot>)
    returns (p': nat, ghost owner': map<LayerId, InSlot>, ghost done': set<InSlot>)
    requires graph.Valid() && g0.Valid() && Stage(g0, graph.Snapshot(), owner, done) && p < |graph.layers|
    requires Passed(g0, graph.Snapshot(), done, p)
    modifies graph`layers, graph`info, graph`nextGuid, graph`inputIds, graph`outputIds, graph`source, graph`sinks, graph`strategies
    ensures graph.Valid() && p' <= |graph.layers| && Stage(g0, graph.Snapshot(), owner', done')
    ensures Passed(g0, graph.Snapshot(), done', p')
    ensures StepsOn(old(graph.Snapshot()), graph.Snapshot(), old(graph.layers)[p], p, p')
    ensures old(graph.layers)[p] !in g0.info ==> graph.layers == old(graph.layers) && p' == p + 1
  {
    ghost var g := graph.Snapshot();
    var src := graph.layers[p];
    assert src in graph.layers;
    IndexOfUnique(graph.layers, p);
    var next := if p + 1 < |graph.layers| then [graph.layers[p + 1]] else [];
    owner', done' := BridgeLayer(graph, src, g0, owner, done);
    if next == [] {
      p' := |graph.layers|;
    } else {
      p' := Find(graph.layers, next[0]);
    }
    StepOn(g, graph.Snapshot(), p, p');
    PassedNext(g0, g, graph.Snapshot(), done, done', src, p, p');
    if src !in g0.info && p + 1 < |g.layers| {
      IndexOfUnique(g.layers, p + 1);
    }
  }

  lemma {:induction false} AheadNext(g0: Net, g: Net, h: Net, todo: set<LayerId>, src: LayerId, p: nat, p': nat)
    requires KeepsLayers(g0, g) && g.Listed() && Ahead(g0, g, todo, p) && StepsOn(g, h, src, p, p')
    requires src in g.info && Pos(g, src) == p
    ensures Ahead(g0, h, todo - {src}, p')
    ensures src in g0.info ==> |todo - {src}| < |todo|
    ensures src !in g0.info ==> todo - {src} == todo
  {
  }

  /** Both ends of the edge into i are layers that are neither copies nor imports. */
  ghost predicate Ordinary(g: Net, i: InSlot) {
    && i in g.source && i.layer in g.info && !g.info[i.layer].kind.MemCopy? && !g.info[i.layer].kind.MemImport?
    && g.source[i].layer in g.info && !g.info[g.source[i].layer].kind.MemCopy? && !g.info[g.source[i].layer].kind.MemImport?
  }

  /** In h slot i reads a new layer of the given kind, on the backend of i's layer, which reads what i read in g; both edges
      are directly compatible. */
  ghost predicate ServedBy(g: Net, h: Net, i: InSlot, n: LayerId, kind: LayerType) {
    && i in g.source && i.layer in g.info && n !in g.info && n in h.info
    && h.info[n].kind == kind && h.info[n].numIn == 1 && h.info[n].numOut == 1 && h.info[n].backend == g.info[i.layer].backend
    && i in h.source && h.source[i] == OutSlot(n, 0) && InSlot(n, 0) in h.source && h.source[InSlot(n, 0)] == g.source[i]
    && h.StrategyOf(i) == DirectCompatibility && h.StrategyOf(InSlot(n, 0)) == DirectCompatibility
  }

  /** What becomes of the edge into i, by its strategy. */
  ghost predicate EdgeServed(g: Net, h: Net, i: InSlot) {
    if Ordinary(g, i) && g.StrategyOf(i) == CopyToTarget then exists n :: ServedBy(g, h, i, n, MemCopy)
    else if Ordinary(g, i) && g.StrategyOf(i) == ExportToTarget then exists n :: ServedBy(g, h, i, n, MemImport)
    else i in g.source ==> i in h.source && h.source[i] == g.source[i] && h.StrategyOf(i) == g.StrategyOf(i)
  }

  /** No edge between ordinary layers is left that asks for a copy or an export. */
  ghost predicate NothingLeft(h: Net) {
    forall i :: Ordinary(h, i) ==> h.StrategyOf(i) != CopyToTarget && h.StrategyOf(i) != ExportToTarget
  }

  lemma {:induction false} EdgesServed(g: Net, h: Net, owner: map<LayerId, InSlot>, done: set<InSlot>)
    requires g.Valid() && CompatState(g, h, owner, done) && forall i :: i in done <==> Needs(g, i)
    ensures forall i :: EdgeServed(g, h, i)
  {
    forall i
      ensures EdgeServed(g, h, i)
    {
      assert EdgeOK(g, h, owner, done, i) && g.SourceOK(i);
      if i in done {
        var n := h.source[i].layer;
        assert NewLayerOK(g, h, owner, done, n);
        assert ServedBy(g, h, i, n, if g.StrategyOf(i) == CopyToTarget then MemCopy else MemImport);
      }
    }
  }

  /** Every new layer serves an edge. */
  ghost predicate LayerServes(g: Net, h: Net, n: LayerId) {
    n in h.info && n !in g.info ==> exists i :: ServedBy(g, h, i, n, MemCopy) || ServedBy(g, h, i, n, MemImport)
  }

  lemma {:induction false} LayersServe(g: Net, h: Net, owner: map<LayerId, InSlot>, done: set<InSlot>)
    requires g.Valid() && CompatState(g, h, owner, done)
    ensures forall n :: LayerServes(g, h, n)
  {
    forall n
      ensures LayerServes(g, h, n)
    {
      assert NewLayerOK(g, h, owner, done, n);
      if n in owner {
        var i := owner[n];
        assert g.SourceOK(i);
        assert ServedBy(g, h, i, n, MemCopy) || ServedBy(g, h, i, n, MemImport);
      }
    }
  }

  lemma {:induction false} AllServed(g: Net, h: Net, owner: map<LayerId, InSlot>, done: set<InSlot>)
    requires g.Valid() && CompatState(g, h, owner, done) && (forall i :: i in done <==> Needs(g, i)) && forall i :: EdgeServed(g, h, i)
    ensures NothingLeft(h)
  {
    forall i | Ordinary(h, i)
      ensures h.StrategyOf(i) != CopyToTarget && h.StrategyOf(i) != ExportToTarget
    {
      assert EdgeServed(g, h, i) && EdgeOK(g, h, owner, done, i) && g.SourceOK(i);
      assert NewLayerOK(g, h, owner, done, i.layer);
      assert i in g.source ==> (Ordinary(h, i) && h.source[i] == g.source[i] ==> Ordinary(g, i));
    }
  }

  /** Graph::AddCompatibilityLayers. Inserted layers the walk may still meet are copy or import layers
      and left alone. */
  method AddCompatibilityLayers(graph: Graph) returns (ghost owner: map<LayerId, InSlot>, ghost done: set<InSlot>)
    requires graph.Valid()
    modifies graph`layers, graph`info, graph`nextGuid, graph`inputIds, graph`outputIds, graph`source, graph`sinks, graph`strategies
    ensures graph.Valid() && CompatState(old(graph.Snapshot()), graph.Snapshot(), owner, done)
    ensures forall i :: i in done <==> Needs(old(graph.Snapshot()), i)
    ensures forall i :: EdgeServed(old(graph.Snapshot()), graph.Snapshot(), i)
    ensures NothingLeft(graph.Snapshot())
    ensures KeepsLayers(old(graph.Snapshot()), graph.Snapshot()) && forall n :: LayerServes(old(graph.Snapshot()), graph.Snapshot(), n)
    ensures Sorted(old(graph.Snapshot())) ==> Sorted(graph.Snapshot())
  {
    ghost var g0 := graph.Snapshot();
    owner, done := map[], {};
    CompatStart(g0);
    ghost var todo := g0.info.Keys;
    var p: nat := 0;
    while p < |graph.layers|
      invariant graph.Valid() && p <= |graph.layers| && Stage(g0, graph.Snapshot(), owner, done)
      invariant Passed(g0, graph.Snapshot(), done, p) && Ahead(g0, graph.Snapshot(), todo, p)
      decreases |todo|, |graph.layers| - p
    {
      ghost var g, p0 := graph.Snapshot(), p;
      p, owner, done := WalkOn(graph, p, g0, owner, done);
      IndexOfUnique(g.layers, p0);
      assert g.layers[p0] in g.layers;
      AheadNext(g0, g, graph.Snapshot(), todo, g.layers[p0], p0, p);
      todo := todo - {g.layers[p0]};
    }
    AllPassed(g0, graph.Snapshot(), done, p);
    EdgesServed(g0, graph.Snapshot(), owner, done);
    AllServed(g0, graph.Snapshot(), owner, done);
    LayersServe(g0, graph.Snapshot(), owner, done);
  }

  lemma {:induction false} AllPassed(g0: Net, g: Net, done: set<InSlot>, p: nat)
    requires g0.Valid() && g.Listed() && KeepsLayers(g0, g) && Passed(g0, g, done, p) && |g.layers| <= p
    ensures forall i :: i in done <==> Needs(g0, i)
  {
    forall i
      ensures i in done <==> Needs(g0, i)
    {
      assert g0.SourceOK(i);
    }
  }

  /** What the layers are for: with copies and imports passing on their input, the same value reaches
      every layer of an acyclic graph, Outputs included, and the graph stays acyclic. */
  lemma {:induction false} CompatibilityKeepsMeaning(g0: Net, g: Net, owner: map<LayerId, InSlot>, done: set<InSlot>, f: Sem)
    requires g0.Valid() && g.Valid() && CompatState(g0, g, owner, done) && Acyclic(g0)
    ensures Acyclic(g)
    ensures forall o :: g0.IsOut(o) ==> g.IsOut(o) && Meaning(g, f)[o] == Meaning(g0, f)[o]
    ensures forall l :: l in g0.info && g0.info[l].numIn > 0 ==> Reaching(g, f, l) == Reaching(g0, f, l)
  {
    CompatSplices(g0, g, owner, done);
    SplicingKeepsAcyclic(g0, g);
    SplicingKeepsMeaning(g0, g);
    SameMeaning(g0, g, f);
  }
}
