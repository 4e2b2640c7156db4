/** The optimizer's walk over the graph, with optimizations that change nothing: what remains is the
    removal of layers nobody reads. */
module Optimizer {
  import opened Sequences
  import opened NetGraph
  import opened Evaluation
  import opened Ordering
  import opened Rewrites
  import opened LayerEdits
  import opened Priorities
  import opened Substitution
  import opened GraphModel

  /** A path along the edges from l to a layer without output slots. */
  ghost predicate LivePath(g: Net, l: LayerId, p: seq<LayerId>) {
    && p != [] && p[0] == l
    && p[|p| - 1] in g.info && g.info[p[|p| - 1]].numOut == 0
    && (forall j :: 0 <= j < |p| - 1 ==> IsParent(g, p[j], p[j + 1]))
  }

  /** A layer without output slots can be reached from l. */
  ghost predicate Live(g: Net, l: LayerId) {
    exists p :: LivePath(g, l, p)
  }

  lemma {:induction false} SinkIsLive(g: Net, l: LayerId)
    requires l in g.info && g.info[l].numOut == 0
    ensures Live(g, l)
  {
    assert LivePath(g, l, [l]);
  }

  lemma {:induction false} ParentIsLive(g: Net, i: InSlot)
    requires i in g.source && Live(g, i.layer)
    ensures Live(g, g.source[i].layer)
  {
    var p :| LivePath(g, i.layer, p);
    var q := [g.source[i].layer] + p;
    assert IsParent(g, g.source[i].layer, i.layer);
    forall j | 0 <= j < |q| - 1
      ensures IsParent(g, q[j], q[j + 1])
    {
      assert j > 0 ==> IsParent(g, p[j - 1], p[j - 1 + 1]);
    }
    assert LivePath(g, g.source[i].layer, q);
  }

  /** A live layer with output slots feeds a live layer. */
  lemma {:induction false} LiveReader(g: Net, l: LayerId) returns (i: InSlot)
    requires Live(g, l) && l in g.info && g.info[l].numOut > 0
    ensures i in g.source && g.source[i].layer == l && Live(g, i.layer)
  {
    var p :| LivePath(g, l, p);
    assert IsParent(g, p[0], p[0 + 1]);
    i :| i in g.source && i.layer == p[1] && g.source[i].layer == l;
    var q := p[1..];
    forall j | 0 <= j < |q| - 1
      ensures IsParent(g, q[j], q[j + 1])
    {
      assert IsParent(g, p[j + 1], p[j + 1 + 1]);
    }
    assert LivePath(g, i.layer, q);
  }

  /** No output slot of l has a reader, and it has output slots. */
  ghost predicate OutputUnconnected(g: Net, l: LayerId) {
    l in g.info && g.info[l].numOut > 0 && forall i :: i in g.source ==> g.source[i].layer != l
  }

  /** From position p on the walk has kept exactly the live layers; before p nothing has happened. */
  ghost predicate Walked(g: Net, h: Net, gone: set<LayerId>, p: nat) {
    && p <= |h.layers| && p <= |g.layers| && h.layers[..p] == g.layers[..p]
    && ErasedAll(g, h, gone)
    && (forall l :: l in gone ==> l in g.info && !Live(g, l))
    && (forall k :: p <= k < |h.layers| ==> Live(g, h.layers[k]))
  }

  lemma {:induction false} WalkStart(g: Net)
    ensures Walked(g, g, {}, |g.layers|)
  {
    ErasedAllStart(g);
  }

  /** With equal prefixes, an element that comes after the one comes after the other. */
  lemma {:induction false} AfterPrefix(s: seq<LayerId>, t: seq<LayerId>, n: nat, x: LayerId)
    requires n <= |s| && n <= |t| && s[..n] == t[..n] && n <= IndexOf(s, x)
    ensures n <= IndexOf(t, x)
  {
    assert forall k :: 0 <= k < n ==> s[k] == s[..n][k] && t[k] == t[..n][k];
  }

  /** A reader of the layer at position p that is still there has been kept for good. */
  lemma {:induction false} ReaderWalked(g: Net, h: Net, gone: set<LayerId>, p: nat, i: InSlot)
    requires g.Valid() && h.Valid() && Forward(g) && Walked(g, h, gone, p + 1)
    requires i in g.source && g.source[i].layer == g.layers[p] && i.layer !in gone
    ensures Live(g, i.layer)
  {
    assert g.SourceOK(i);
    IndexOfUnique(g.layers, p);
    assert i.layer in h.info && i.layer in h.layers;
    AfterPrefix(g.layers, h.layers, p + 1, i.layer);
    assert Live(g, h.layers[Pos(h, i.layer)]);
  }

  /** What the walk sees of a layer tells whether it is live. */
  lemma {:induction false} SeenLive(g: Net, h: Net, gone: set<LayerId>, p: nat)
    requires g.Valid() && h.Valid() && Forward(g) && Walked(g, h, gone, p + 1)
    ensures h.layers[p] == g.layers[p] && h.layers[p] in h.info
    ensures Live(g, h.layers[p]) <==> !OutputUnconnected(h, h.layers[p])
  {
    var l := h.layers[p];
    assert h.layers[..p + 1][p] == g.layers[..p + 1][p];
    assert l in h.layers && l in h.info;
    if g.info[l].numOut == 0 {
      SinkIsLive(g, l);
    } else {
      if Live(g, l) {
        var i := LiveReader(g, l);
        assert g.SourceOK(i);
      }
      if !OutputUnconnected(h, l) {
        var i :| i in h.source && h.source[i].layer == l;
        ReaderWalked(g, h, gone, p, i);
        ParentIsLive(g, i);
      }
    }
  }

  lemma {:induction false} WalkKeeps(g: Net, h: Net, gone: set<LayerId>, p: nat)
    requires Walked(g, h, gone, p + 1) && Live(g, h.layers[p])
    ensures Walked(g, h, gone, p)
  {
    assert h.layers[..p] == h.layers[..p + 1][..p] && g.layers[..p] == g.layers[..p + 1][..p];
  }

  lemma {:induction false} WalkErases(g: Net, h: Net, h': Net, gone: set<LayerId>, p: nat)
    requires NoDup(g.layers) && h.Listed() && Walked(g, h, gone, p + 1) && !Live(g, h.layers[p]) && h.layers[p] in g.info
    requires Erased(h, h', h.layers[p])
    ensures Walked(g, h', gone + {h.layers[p]}, p)
  {
    IndexOfUnique(h.layers, p);
    ErasedAllNext(g, h, h', gone, h.layers[p]);
    assert h'.layers[..p] == h.layers[..p + 1][..p] && g.layers[..p] == g.layers[..p + 1][..p];
  }

  /** h consists of the live layers of g and all edges among them. */
  ghost predicate Pruned(g: Net, h: Net) {
    && (forall l :: l in h.info <==> l in g.info && Live(g, l))
    && (forall l :: l in h.info ==> h.info[l] == g.info[l])
    && (forall i :: i in h.source <==> i in g.source && i.layer in h.info && g.source[i].layer in h.info)
    && (forall i :: i in h.source ==> h.source[i] == g.source[i] && h.StrategyOf(i) == g.StrategyOf(i))
    && (forall o :: Subsequence(h.Sinks(o), g.Sinks(o)))
  }

  lemma {:induction false} WalkDone(g: Net, h: Net, gone: set<LayerId>)
    requires g.Valid() && h.Valid() && Walked(g, h, gone, 0)
    ensures Pruned(g, h)
  {
    forall l
      ensures l in h.info <==> l in g.info && Live(g, l)
    {
      assert l in h.info ==> l in h.layers;
      assert l in h.layers ==> Live(g, h.layers[IndexOf(h.layers, l)]);
    }
    forall i | i in g.source
      ensures i.layer in g.info && g.source[i].layer in g.info
    {
      assert g.SourceOK(i);
    }
  }

  /** Dead layers do not matter: whatever remains carries and receives the same values. Layers without
      output slots, the Outputs among them, all remain. */
  lemma {:induction false} PruningKeepsMeaning(g: Net, h: Net, f: Sem)
    requires g.Valid() && h.Valid() && Pruned(g, h) && Acyclic(g)
    ensures Acyclic(h)
    ensures forall o :: h.IsOut(o) ==> g.IsOut(o) && Meaning(h, f)[o] == Meaning(g, f)[o]
    ensures forall l :: l in h.info && h.info[l].numIn > 0 ==> Reaching(h, f, l) == Reaching(g, f, l)
    ensures forall l :: l in g.info && g.info[l].numOut == 0 ==> l in h.info
  {
    PrunedIsAcyclic(g, h);
    forall l | l in g.info && g.info[l].numOut == 0
      ensures l in h.info
    {
      SinkIsLive(g, l);
    }
    PrunedMeaning(g, h);
    SameMeaning(h, g, f);
  }

  lemma {:induction false} PrunedMeaning(g: Net, h: Net)
    requires g.Linked() && Pruned(g, h)
    ensures KeepsMeaning(h, g)
  {
    forall i | h.IsIn(i)
      ensures i in h.source <==> i in g.source
    {
      if i in g.source {
        assert g.SourceOK(i);
        ParentIsLive(g, i);
      }
    }
  }

  lemma {:induction false} PrunedIsAcyclic(g: Net, h: Net)
    requires h.Linked() && Pruned(g, h) && Acyclic(g)
    ensures Acyclic(h)
  {
    var rg: map<LayerId, nat> :| Ranked(g, rg);
    var rank := RanksOver(h.info.Keys, rg, map[]);
    forall i | i in h.source
      ensures i.layer in rank && h.source[i].layer in rank && rank[h.source[i].layer] < rank[i.layer]
    {
      assert h.SourceOK(i);
    }
    assert Ranked(h, rank);
  }

  /** Layer::IsOutputUnconnected. */
  method IsOutputUnconnected(graph: Graph, l: LayerId) returns (r: bool)
    requires graph.Valid() && l in graph.info
    ensures r <==> OutputUnconnected(graph.Snapshot(), l)
  {
    ghost var g := graph.Snapshot();
    var numConnections := 0;
    var k := 0;
    while k < graph.info[l].numOut
      invariant k <= graph.info[l].numOut
      invariant numConnections >= 0
      invariant numConnections == 0 <==> forall j: nat :: j < k ==> g.Sinks(OutSlot(l, j)) == []
    {
      numConnections := numConnections + |graph.Snapshot().Sinks(OutSlot(l, k))|;
      k := k + 1;
    }
    r := graph.info[l].numOut > 0 && numConnections == 0;
    ConnectionsSeen(g, l);
  }

  lemma {:induction false} ConnectionsSeen(g: Net, l: LayerId)
    requires g.Linked() && l in g.info
    ensures (forall i :: i in g.source ==> g.source[i].layer != l) <==> (forall j: nat :: j < g.info[l].numOut ==> g.Sinks(OutSlot(l, j)) == [])
  {
    forall i | i in g.source && g.source[i].layer == l
      ensures g.source[i].index < g.info[l].numOut && g.Sinks(OutSlot(l, g.source[i].index)) != []
    {
      assert g.SourceOK(i);
    }
    forall j: nat | g.Sinks(OutSlot(l, j)) != []
      ensures exists i :: i in g.source && g.source[i].layer == l
    {
      HasMember(g.Sinks(OutSlot(l, j)));
      assert g.SinksOK(OutSlot(l, j));
    }
  }

  /** A list of at most one layer has nothing to sort. */
  lemma {:induction false} SmallIsSorted(g: Net)
    requires g.Valid() && |g.layers| < 2 && Acyclic(g)
    ensures Sorted(g)
  {
    var rank: map<LayerId, nat> :| Ranked(g, rank);
    forall i
      ensures i in g.source ==> i.layer in g.layers && g.source[i].layer in g.layers
    {
      assert g.SourceOK(i);
    }
  }

  /** One layer under one optimization that does nothing: erased if nobody reads it. */
  method Visit(graph: Graph, p: nat, ghost g: Net, ghost gone: set<LayerId>) returns (erased: bool, ghost gone': set<LayerId>)
    requires graph.Valid() && g.Valid() && Sorted(g) && Sorted(graph.Snapshot()) && Walked(g, graph.Snapshot(), gone, p + 1)
    modifies graph`layers, graph`info, graph`overridden, graph`source, graph`sinks, graph`strategies, graph`inputIds, graph`outputIds
    ensures graph.Valid() && Sorted(graph.Snapshot()) && Walked(g, graph.Snapshot(), gone', p)
    ensures !erased ==> graph.Snapshot() == old(graph.Snapshot()) && gone' == gone
  {
    ghost var h := graph.Snapshot();
    var l := graph.layers[p];
    SeenLive(g, h, gone, p);
    erased := IsOutputUnconnected(graph, l);
    if erased {
      graph.EraseLayer(l);
    }
    VisitEnds(g, h, graph.Snapshot(), gone, p, erased);
    gone' := if erased then gone + {l} else gone;
  }

  lemma {:induction false} VisitEnds(g: Net, h: Net, h': Net, gone: set<LayerId>, p: nat, erased: bool)
    requires g.Valid() && h.Valid() && Forward(g) && Walked(g, h, gone, p + 1)
    requires erased <==> OutputUnconnected(h, h.layers[p])
    requires if erased then Erased(h, h', h.layers[p]) else h' == h
    ensures Walked(g, h', if erased then gone + {h.layers[p]} else gone, p)
  {
    SeenLive(g, h, gone, p);
    if erased {
      WalkErases(g, h, h', gone, p);
    } else {
      WalkKeeps(g, h, gone, p);
    }
  }

  /** The sort before the walk. */
  method SortFirst(graph: Graph) returns (r: Result<()>)
    requires graph.Valid() && |graph.layers| < 0xFFFF_FFFF
    requires graph.layersInOrder ==> Sorted(graph.Snapshot())
    requires |graph.layers| < 2 ==> Acyclic(graph.Snapshot())
    modifies graph`priority, graph`visiting, graph`layers, graph`layersInOrder
    ensures graph.Valid() && graph.Snapshot() == old(graph.Snapshot()).(layers := graph.layers)
    ensures r.Ok? <==> Acyclic(old(graph.Snapshot()))
    ensures Reordered(old(graph.layers), graph.layers)
    ensures r.Ok? ==> Sorted(graph.Snapshot()) && graph.layersInOrder
  {
    ghost var g := graph.Snapshot();
    if graph.layersInOrder {
      SortedIsAcyclic(g);
    }
    r := graph.TopologicalSort();
    RelistedIsAcyclic(g, graph.Snapshot());
    if |g.layers| < 2 {
      LayerCount(g);
      LayerCount(graph.Snapshot());
      SmallIsSorted(graph.Snapshot());
    }
  }

  lemma {:induction false} LiveRelisted(g: Net, h: Net, l: LayerId)
    requires h == g.(layers := h.layers) && Live(g, l)
    ensures Live(h, l)
  {
    var p :| LivePath(g, l, p);
    forall j | 0 <= j < |p| - 1
      ensures IsParent(h, p[j], p[j + 1])
    {
      assert IsParent(g, p[j], p[j + 1]);
    }
    assert LivePath(h, l, p);
  }

  lemma {:induction false} PrunedRelisted(g: Net, m: Net, h: Net)
    requires m == g.(layers := m.layers) && Pruned(m, h)
    ensures Pruned(g, h)
  {
    forall l
      ensures Live(g, l) <==> Live(m, l)
    {
      if Live(g, l) { LiveRelisted(g, m, l); }
      if Live(m, l) { LiveRelisted(m, g, l); }
    }
    assert forall i :: m.StrategyOf(i) == g.StrategyOf(i);
    assert forall o :: m.Sinks(o) == g.Sinks(o);
  }

  /** The optimizations in turn, at one layer, until it is erased. */
  method RunAll(graph: Graph, p: nat, optimizations: nat, ghost g: Net, ghost gone: set<LayerId>) returns (ghost gone': set<LayerId>)
    requires graph.Valid() && g.Valid() && Sorted(g) && Sorted(graph.Snapshot()) && Walked(g, graph.Snapshot(), gone, p + 1)
    requires optimizations > 0
    modifies graph`layers, graph`info, graph`overridden, graph`source, graph`sinks, graph`strategies, graph`inputIds, graph`outputIds
    ensures graph.Valid() && Sorted(graph.Snapshot()) && Walked(g, graph.Snapshot(), gone', p)
  {
    gone' := gone;
    var k := 0;
    var erased := false;
    while k < optimizations && !erased
      invariant k <= optimizations && graph.Valid() && Sorted(graph.Snapshot())
      invariant !erased ==> Walked(g, graph.Snapshot(), gone', p + 1)
      invariant k > 0 ==> Walked(g, graph.Snapshot(), gone', p)
      invariant erased ==> k > 0
      decreases optimizations - k
    {
      erased, gone' := Visit(graph, p, g, gone');
      k := k + 1;
    }
  }

  /** Optimizer::Pass with a list of optimizations, at least one, that change nothing. */
  method Pass(graph: Graph, optimizations: nat) returns (r: Result<()>)
    requires graph.Valid() && optimizations > 0 && |graph.layers| < 0xFFFF_FFFF
    requires graph.layersInOrder ==> Sorted(graph.Snapshot())
    requires |graph.layers| < 2 ==> Acyclic(graph.Snapshot())
    modifies graph`layers, graph`info, graph`overridden, graph`source, graph`sinks, graph`strategies, graph`inputIds, graph`outputIds
    modifies graph`priority, graph`visiting, graph`layersInOrder
    ensures graph.Valid()
    ensures r.Ok? <==> Acyclic(old(graph.Snapshot()))
    ensures r.Err? ==> graph.Snapshot() == old(graph.Snapshot()).(layers := graph.layers) && Reordered(old(graph.layers), graph.layers)
    ensures r.Ok? ==> Sorted(graph.Snapshot()) && graph.layersInOrder && Pruned(old(graph.Snapshot()), graph.Snapshot())
  {
    ghost var g0 := graph.Snapshot();
    r := SortFirst(graph);
    if r.Err? {
      return;
    }
    ghost var g := graph.Snapshot();
    WalkAll(graph, optimizations);
    PrunedRelisted(g0, g, graph.Snapshot());
  }

  /** Iterating over the graph sorts it again, which does nothing while the flag is up. */
  method StaySorted(graph: Graph)
    requires graph.Valid() && graph.layersInOrder
    modifies graph`priority, graph`visiting, graph`layers, graph`layersInOrder
    ensures graph.Valid() && graph.layersInOrder && graph.Snapshot() == old(graph.Snapshot())
  {
    var sorted := graph.TopologicalSort();
  }

  /** One step of the walk. */
  method WalkOne(graph: Graph, p: nat, optimizations: nat, ghost g: Net, ghost gone: set<LayerId>) returns (ghost gone': set<LayerId>)
    requires graph.Valid() && graph.layersInOrder && optimizations > 0
    requires g.Valid() && Sorted(g) && Sorted(graph.Snapshot()) && Walked(g, graph.Snapshot(), gone, p + 1)
    modifies graph`layers, graph`info, graph`overridden, graph`source, graph`sinks, graph`strategies, graph`inputIds, graph`outputIds
    modifies graph`priority, graph`visiting, graph`layersInOrder
    ensures graph.Valid() && graph.layersInOrder && Sorted(graph.Snapshot()) && Walked(g, graph.Snapshot(), gone', p)
  {
    StaySorted(graph);
    gone' := RunAll(graph, p, optimizations, g, gone);
  }

  /** The walk, from the last layer to the first. */
  method WalkAll(graph: Graph, optimizations: nat)
    requires graph.Valid() && optimizations > 0 && Sorted(graph.Snapshot()) && graph.layersInOrder
    modifies graph`layers, graph`info, graph`overridden, graph`source, graph`sinks, graph`strategies, graph`inputIds, graph`outputIds
    modifies graph`priority, graph`visiting, graph`layersInOrder
    ensures graph.Valid() && Sorted(graph.Snapshot()) && graph.layersInOrder && Pruned(old(graph.Snapshot()), graph.Snapshot())
  {
    ghost var g := graph.Snapshot();
    WalkStart(g);
    ghost var gone: set<LayerId> := {};
    var p: nat := |graph.layers|;
    while p > 0
      invariant graph.Valid() && Sorted(graph.Snapshot()) && Walked(g, graph.Snapshot(), gone, p)
      invariant graph.layersInOrder
      decreases p
    {
      gone := WalkOne(graph, p - 1, optimizations, g, gone);
      p := p - 1;
    }
    WalkDone(g, graph.Snapshot(), gone);
  }
}
