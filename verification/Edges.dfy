/** What the slot operations do to the edges of a graph. */
module Edges {
  import opened Sequences
  import opened NetGraph

  /** The back pointers after every connection of o has gone to d. */
  function Redirect(m: map<InSlot, OutSlot>, o: OutSlot, d: OutSlot): (r: map<InSlot, OutSlot>)
    ensures forall i :: i in r <==> i in m
    ensures forall i :: i in r ==> r[i] == if m[i] == o then d else m[i]
  {
    map i | i in m :: if m[i] == o then d else m[i]
  }

  /** The back pointers after every connection of o is gone. */
  function WithoutSource(m: map<InSlot, OutSlot>, o: OutSlot): (r: map<InSlot, OutSlot>)
    ensures forall i :: i in r <==> i in m && m[i] != o
    ensures forall i :: i in r ==> r[i] == m[i]
  {
    map i | i in m && m[i] != o :: m[i]
  }

  /** h is g after output slot o lost all its connections. */
  ghost predicate Detached(g: Net, h: Net, o: OutSlot) {
    && SameLayers(g, h)
    && h.source == WithoutSource(g.source, o)
    && (forall p :: h.Sinks(p) == if p == o then [] else g.Sinks(p))
    && (forall i :: i in h.source ==> h.StrategyOf(i) == g.StrategyOf(i))
  }

  /** h is g with some connections of o gone. */
  ghost predicate Detaching(g: Net, h: Net, o: OutSlot) {
    && SameLayers(g, h)
    && (forall i :: i in h.source ==> i in g.source && h.source[i] == g.source[i] && h.StrategyOf(i) == g.StrategyOf(i))
    && (forall i :: i in g.source && g.source[i] != o ==> i in h.source)
    && (forall p :: p != o ==> h.Sinks(p) == g.Sinks(p))
  }

  lemma {:induction false} DetachingStep(g: Net, h: Net, o: OutSlot, i: InSlot)
    requires h.Linked() && Detaching(g, h, o) && i in h.Sinks(o)
    ensures Detaching(g, h.Unlink(o, i), o) && h.Unlink(o, i).Linked()
    ensures i in h.source && h.source[i] == o
    ensures |h.Unlink(o, i).Sinks(o)| == |h.Sinks(o)| - 1
  {
    assert h.SinksOK(o);
    UnlinkKeeps(h, o, i);
  }

  lemma {:induction false} DetachingDone(g: Net, h: Net, o: OutSlot)
    requires h.Linked() && Detaching(g, h, o) && h.Sinks(o) == []
    ensures Detached(g, h, o)
  {
    forall i | i in h.source
      ensures h.source[i] != o
    {
      assert h.SourceOK(i);
    }
  }

  /** h is g after every connection of o moved, in order, to the end of d's list. */
  ghost predicate Moved(g: Net, h: Net, o: OutSlot, d: OutSlot) {
    && SameLayers(g, h)
    && h.source == Redirect(g.source, o, d)
    && h.Sinks(o) == [] && h.Sinks(d) == g.Sinks(d) + g.Sinks(o)
    && (forall p :: p != o && p != d ==> h.Sinks(p) == g.Sinks(p))
    && (forall i :: i in g.source ==> h.StrategyOf(i) == if g.source[i] == o then Undefined else g.StrategyOf(i))
  }

  /** h is g after the connections in the list moved has been taken from o to d. */
  ghost predicate Moving(g: Net, h: Net, o: OutSlot, d: OutSlot, moved: seq<InSlot>) {
    && SameLayers(g, h)
    && g.Sinks(o) == moved + h.Sinks(o) && h.Sinks(d) == g.Sinks(d) + moved
    && (forall p :: p != o && p != d ==> h.Sinks(p) == g.Sinks(p))
    && h.source.Keys == g.source.Keys
    && (forall i :: i in g.source ==> h.source[i] == if i in moved then d else g.source[i])
    && (forall i :: i in g.source ==> h.StrategyOf(i) == if i in moved then Undefined else g.StrategyOf(i))
  }

  /** Disconnecting input slot i from o and connecting it to d. */
  lemma {:induction false} Reroute(h: Net, i: InSlot, o: OutSlot, d: OutSlot, m: Net, k: Net)
    requires h.Linked() && h.IsOut(d) && i in h.source && h.source[i] == o
    requires m == h.Unlink(o, i) && k == m.Link(d, i)
    ensures m.Linked() && k.Linked() && m.IsIn(i) && m.IsOut(d) && i !in m.source
    ensures k.source == h.source[i := d]
    ensures SameEdgesBut(h, k, i) && k.StrategyOf(i) == Undefined
  {
    assert h.SourceOK(i);
    UnlinkKeeps(h, o, i);
    RerouteSource(h, i, o, d, m, k);
    LinkKeeps(m, d, i);
    SameEdgesButTransitive(h, m, k, i);
  }

  lemma {:induction false} RerouteSource(h: Net, i: InSlot, o: OutSlot, d: OutSlot, m: Net, k: Net)
    requires h.IsOut(d) && h.IsIn(i) && i in h.source && m == h.Unlink(o, i) && k == m.Link(d, i)
    ensures m.IsIn(i) && m.IsOut(d) && i !in m.source
    ensures k.source == h.source[i := d]
  {
  }

  lemma {:induction false} RerouteFirst(h: Net, i: InSlot, o: OutSlot, d: OutSlot, m: Net, k: Net)
    requires h.Linked() && o != d && h.Sinks(o) != [] && i == h.Sinks(o)[0]
    requires m == h.Unlink(o, i) && k == m.Link(d, i)
    ensures i in h.source && h.source[i] == o
    ensures k.Sinks(o) == h.Sinks(o)[1..] && k.Sinks(d) == h.Sinks(d) + [i]
    ensures forall p :: p != o && p != d ==> k.Sinks(p) == h.Sinks(p)
  {
    assert h.SinksOK(o) && i in h.Sinks(o);
    assert IndexOf(h.Sinks(o), i) == 0;
    assert m.Sinks(o) == h.Sinks(o)[1..];
  }

  lemma {:induction false} MovingStep(g: Net, h: Net, k: Net, i: InSlot, o: OutSlot, d: OutSlot, moved: seq<InSlot>)
    requires Moving(g, h, o, d, moved) && h.Sinks(o) != [] && i == h.Sinks(o)[0] && i in h.source
    requires SameLayers(h, k) && k.source == h.source[i := d]
    requires k.Sinks(o) == h.Sinks(o)[1..] && k.Sinks(d) == h.Sinks(d) + [i]
    requires forall p :: p != o && p != d ==> k.Sinks(p) == h.Sinks(p)
    requires SameEdgesBut(h, k, i) && k.StrategyOf(i) == Undefined
    ensures Moving(g, k, o, d, moved + [i])
  {
    HeadToEnd(moved, h.Sinks(o), g.Sinks(d));
  }

  lemma {:induction false} SinksAreReaders(g: Net, o: OutSlot)
    requires g.Linked()
    ensures forall i :: i in g.source ==> (i in g.Sinks(o) <==> g.source[i] == o)
  {
    assert g.SinksOK(o);
    forall i | i in g.source
      ensures i in g.Sinks(o) <==> g.source[i] == o
    {
      assert g.SourceOK(i);
    }
  }

  lemma {:induction false} MovingDone(g: Net, h: Net, o: OutSlot, d: OutSlot, moved: seq<InSlot>)
    requires Moving(g, h, o, d, moved) && h.Sinks(o) == []
    requires forall i :: i in g.source ==> (i in g.Sinks(o) <==> g.source[i] == o)
    ensures Moved(g, h, o, d)
  {
    assert moved == g.Sinks(o);
  }

  /** Writing the strategy that is already there changes nothing. */
  lemma {:induction false} SameStrategy(g: Net, o: OutSlot, k: nat)
    requires k < |g.Strategies(o)|
    ensures g.WithStrategy(o, k, g.Strategies(o)[k]) == g
  {
    assert g.Strategies(o)[k := g.Strategies(o)[k]] == g.Strategies(o);
    assert g.strategies[o := g.Strategies(o)] == g.strategies;
  }

  /** Layer n takes the place of input slot i among the readers, at the end of the list; other lists stay. */
  ghost predicate Requeued(g: Net, h: Net, i: InSlot, n: LayerId) {
    forall p :: p != OutSlot(n, 0) ==>
      h.Sinks(p) == (if i in g.source && p == g.source[i] && i in g.Sinks(p)
                     then RemoveAt(g.Sinks(p), IndexOf(g.Sinks(p), i)) + [InSlot(n, 0)]
                     else g.Sinks(p))
  }

  /** The edges of h are those of g with layer n, which has one output slot, in front of input slot i: i reads n
      and n reads what i read before, both without a strategy yet. */
  ghost predicate PutBefore(g: Net, h: Net, i: InSlot, n: LayerId) {
    && h.source == (if i in g.source then g.source[InSlot(n, 0) := g.source[i]] else g.source)[i := OutSlot(n, 0)]
    && (forall j :: j in g.source && j != i ==> h.StrategyOf(j) == g.StrategyOf(j))
    && h.StrategyOf(i) == Undefined
    && (i in g.source ==> h.StrategyOf(InSlot(n, 0)) == Undefined)
    && h.Sinks(OutSlot(n, 0)) == [i] && Requeued(g, h, i, n)
  }

  ghost predicate InsertedBefore(g: Net, h: Net, i: InSlot, n: LayerId) {
    SameLayers(g, h) && PutBefore(g, h, i, n)
  }

  lemma {:induction false} RemoveThenSet<K, V>(m: map<K, V>, i: K, j: K, o: V, p: V)
    requires i != j
    ensures (m - {i})[j := o][i := p] == m[j := o][i := p]
  {
  }

  lemma {:induction false} InsertedSteps(g: Net, m: Net, k: Net, h: Net, i: InSlot, n: LayerId)
    requires i in g.source && InSlot(n, 0) !in g.source && i.layer != n
    requires SameLayers(g, m) && SameLayers(m, k) && SameLayers(k, h)
    requires m.source == g.source - {i} && SameEdgesBut(g, m, i)
    requires k.source == m.source[InSlot(n, 0) := g.source[i]] && SameEdgesBut(m, k, InSlot(n, 0))
    requires k.StrategyOf(InSlot(n, 0)) == Undefined
    requires h.source == k.source[i := OutSlot(n, 0)] && SameEdgesBut(k, h, i)
    requires h.StrategyOf(i) == Undefined && h.Sinks(OutSlot(n, 0)) == [i] && Requeued(g, h, i, n)
    ensures InsertedBefore(g, h, i, n)
  {
    RemoveThenSet(g.source, i, InSlot(n, 0), g.source[i], OutSlot(n, 0));
  }

  lemma {:induction false} InsertedIsLinked(g: Net, i: InSlot, n: LayerId, m: Net, k: Net)
    requires g.Linked() && g.IsIn(i) && i.layer != n && i in g.source
    requires g.IsOut(OutSlot(n, 0)) && g.Sinks(OutSlot(n, 0)) == []
    requires g.IsIn(InSlot(n, 0)) && InSlot(n, 0) !in g.source
    requires m == g.Unlink(g.source[i], i) && k == m.Link(g.source[i], InSlot(n, 0))
    ensures m.Linked() && m.IsIn(InSlot(n, 0)) && m.IsOut(g.source[i]) && InSlot(n, 0) !in m.source
    ensures k.Linked() && k.IsIn(i) && k.IsOut(OutSlot(n, 0)) && i !in k.source
    ensures k.Link(OutSlot(n, 0), i).Linked()
    ensures InsertedBefore(g, k.Link(OutSlot(n, 0), i), i, n)
  {
    var o := g.source[i];
    assert g.SourceOK(i);
    UnlinkKeeps(g, o, i);
    LinkKeeps(m, o, InSlot(n, 0));
    assert g.SinksOK(o);
    assert o != OutSlot(n, 0);
    assert k.Sinks(OutSlot(n, 0)) == [];
    LinkKeeps(k, OutSlot(n, 0), i);
    InsertedLists(g, i, n, m, k);
    InsertedSteps(g, m, k, k.Link(OutSlot(n, 0), i), i, n);
  }

  lemma {:induction false} InsertedLists(g: Net, i: InSlot, n: LayerId, m: Net, k: Net)
    requires i in g.source && g.SinksOK(g.source[i]) && i in g.Sinks(g.source[i]) && g.source[i] != OutSlot(n, 0)
    requires m == g.Unlink(g.source[i], i) && k == m.Link(g.source[i], InSlot(n, 0))
    ensures Requeued(g, k.Link(OutSlot(n, 0), i), i, n)
  {
  }

  lemma {:induction false} InsertedUnconnected(g: Net, i: InSlot, n: LayerId)
    requires g.Linked() && g.IsIn(i) && i.layer != n && i !in g.source
    requires g.IsOut(OutSlot(n, 0)) && g.Sinks(OutSlot(n, 0)) == []
    ensures g.Link(OutSlot(n, 0), i).Linked()
    ensures InsertedBefore(g, g.Link(OutSlot(n, 0), i), i, n)
  {
    LinkKeeps(g, OutSlot(n, 0), i);
  }

  /** h is g with some edges touching layer l gone. */
  ghost predicate Shedding(g: Net, h: Net, l: LayerId) {
    && h.info == g.info && h.overridden == g.overridden
    && (forall i :: i in h.source ==> i in g.source && h.source[i] == g.source[i] && h.StrategyOf(i) == g.StrategyOf(i))
    && (forall i :: i in g.source && i.layer != l && g.source[i].layer != l ==> i in h.source)
    && (forall p :: Subsequence(h.Sinks(p), g.Sinks(p)))
  }

  lemma {:induction false} SheddingStart(g: Net, l: LayerId)
    ensures Shedding(g, g, l)
  {
    forall p
      ensures Subsequence(g.Sinks(p), g.Sinks(p))
    {
      SubsequenceRefl(g.Sinks(p));
    }
  }

  lemma {:induction false} SheddingDetached(g: Net, h: Net, k: Net, o: OutSlot)
    requires Shedding(g, h, o.layer) && Detached(h, k, o)
    ensures Shedding(g, k, o.layer)
    ensures forall i :: i in k.source ==> i in h.source && k.source[i] == h.source[i] && k.source[i] != o
  {
    assert forall p :: Subsequence(h.Sinks(p), g.Sinks(p));
  }

  lemma {:induction false} SheddingUnlinked(g: Net, h: Net, i: InSlot)
    requires h.Linked() && i in h.source && Shedding(g, h, i.layer)
    ensures Shedding(g, h.Unlink(h.source[i], i), i.layer)
    ensures h.Unlink(h.source[i], i).source == h.source - {i}
  {
    var o := h.source[i];
    UnlinkKeeps(h, o, i);
    var k := h.Unlink(o, i);
    forall p
      ensures Subsequence(k.Sinks(p), g.Sinks(p))
    {
      if p == o {
        RemoveAtSubsequence(h.Sinks(o), IndexOf(h.Sinks(o), i));
        SubsequenceTransitive(k.Sinks(o), h.Sinks(o), g.Sinks(o));
      } else {
        assert k.Sinks(p) == h.Sinks(p);
      }
    }
  }

  /** A slot with a consumer is known by its connection list: no other slot has the same one. */
  lemma {:induction false} SinksIdentify(g: Net, o: OutSlot, p: OutSlot)
    requires g.Linked() && g.Sinks(o) == g.Sinks(p) && g.Sinks(o) != []
    ensures o == p
  {
    assert g.SinksOK(o) && g.SinksOK(p) && g.Sinks(o)[0] in g.Sinks(o);
  }

  /** k is the first output slot of o's layer whose connection list equals that of o. */
  ghost predicate FirstWithSameSinks(g: Net, o: OutSlot, k: nat) {
    && k <= o.index && g.Sinks(OutSlot(o.layer, k)) == g.Sinks(o)
    && (forall j: nat :: j < k ==> g.Sinks(OutSlot(o.layer, j)) != g.Sinks(o))
  }

  /** Looking a slot up by the contents of its connection list finds that slot exactly when it has a
      consumer or every earlier slot of its layer has one. */
  lemma {:induction false} IndexByContents(g: Net, o: OutSlot, k: nat)
    requires g.Linked() && FirstWithSameSinks(g, o, k)
    ensures k == o.index <==> g.Sinks(o) != [] || forall j: nat :: j < o.index ==> g.Sinks(OutSlot(o.layer, j)) != []
  {
    if g.Sinks(o) != [] {
      SinksIdentify(g, o, OutSlot(o.layer, k));
    } else if k < o.index {
      assert g.Sinks(OutSlot(o.layer, k)) == [];
    }
  }

  /** The second of two output slots without readers is found under index 0. */
  lemma {:induction false} UnreadSlotsConfused(g: Net, l: LayerId)
    requires g.Sinks(OutSlot(l, 0)) == [] && g.Sinks(OutSlot(l, 1)) == []
    ensures FirstWithSameSinks(g, OutSlot(l, 1), 0) && !FirstWithSameSinks(g, OutSlot(l, 1), 1)
  {
    assert g.Sinks(OutSlot(l, 0)) == g.Sinks(OutSlot(l, 1));
  }
}
