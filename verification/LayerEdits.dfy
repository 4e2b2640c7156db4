/** How adding, inserting and erasing layers changes a graph, and what it keeps. */
module LayerEdits {
  import opened Sequences
  import opened NetGraph
  import opened Edges
  import opened Evaluation
  import opened Ordering
  import opened Rewrites

  /** The id sets after layer n, of type li, has been registered. */
  function IdsWith(li: LayerInfo, rank: nat, ids: set<int>): set<int> {
    if li.Rank() == rank then ids + {li.bindingId} else ids
  }

  function IdsWithout(li: LayerInfo, rank: nat, ids: set<int>): set<int> {
    if li.Rank() == rank then ids - {li.bindingId} else ids
  }

  /** ids holds the binding ids of the listed layers of one rank, which are all different. */
  ghost predicate IdsMatch(layers: seq<LayerId>, info: map<LayerId, LayerInfo>, rank: nat, ids: set<int>) {
    if layers == [] then ids == {}
    else
      var l, rest := layers[|layers| - 1], layers[..|layers| - 1];
      if l in info && info[l].Rank() == rank then
        info[l].bindingId in ids && IdsMatch(rest, info, rank, ids - {info[l].bindingId})
      else IdsMatch(rest, info, rank, ids)
  }

  lemma {:induction false} IdsFrame(layers: seq<LayerId>, info: map<LayerId, LayerInfo>, info': map<LayerId, LayerInfo>,
                                    rank: nat, ids: set<int>)
    requires IdsMatch(layers, info, rank, ids)
    requires forall l :: l in layers ==> (l in info <==> l in info') && (l in info ==> info'[l] == info[l])
    ensures IdsMatch(layers, info', rank, ids)
  {
    if layers != [] {
      var l, rest := layers[|layers| - 1], layers[..|layers| - 1];
      assert l in layers;
      IdsFrame(rest, info, info', rank, if l in info && info[l].Rank() == rank then ids - {info[l].bindingId} else ids);
    }
  }

  lemma {:induction false} IdsMember(layers: seq<LayerId>, info: map<LayerId, LayerInfo>, rank: nat, ids: set<int>, l: LayerId)
    requires IdsMatch(layers, info, rank, ids) && l in layers && l in info && info[l].Rank() == rank
    ensures info[l].bindingId in ids
  {
    var m, rest := layers[|layers| - 1], layers[..|layers| - 1];
    if l != m {
      assert l in rest;
      IdsMember(rest, info, rank, if m in info && info[m].Rank() == rank then ids - {info[m].bindingId} else ids, l);
    }
  }

  /** Every id is that of a listed layer. */
  lemma {:induction false} IdsOwned(layers: seq<LayerId>, info: map<LayerId, LayerInfo>, rank: nat, ids: set<int>, b: int)
    requires IdsMatch(layers, info, rank, ids) && b in ids
    ensures exists l :: l in layers && l in info && info[l].Rank() == rank && info[l].bindingId == b
  {
    var m, rest := layers[|layers| - 1], layers[..|layers| - 1];
    if m in info && info[m].Rank() == rank && info[m].bindingId == b {
      assert m in layers;
    } else {
      IdsOwned(rest, info, rank, if m in info && info[m].Rank() == rank then ids - {info[m].bindingId} else ids, b);
      var l :| l in rest && l in info && info[l].Rank() == rank && info[l].bindingId == b;
      assert l in layers;
    }
  }

  /** Another Input, or Output, has the binding id of a layer of type li. */
  ghost predicate IdTaken(g: Net, li: LayerInfo) {
    || (li.kind.Input? && exists l :: l in g.info && g.info[l].kind.Input? && g.info[l].bindingId == li.bindingId)
    || (li.kind.Output? && exists l :: l in g.info && g.info[l].kind.Output? && g.info[l].bindingId == li.bindingId)
  }

  lemma {:induction false} IdTakenExactly(g: Net, inputIds: set<int>, outputIds: set<int>, n: nat, li: LayerInfo)
    requires ValidState(g, inputIds, outputIds, n)
    ensures IdTaken(g, li) <==> (li.kind.Input? && li.bindingId in inputIds) || (li.kind.Output? && li.bindingId in outputIds)
  {
    forall l | l in g.info
      ensures l in g.layers
      ensures g.info[l].kind.Input? ==> g.info[l].bindingId in inputIds
      ensures g.info[l].kind.Output? ==> g.info[l].bindingId in outputIds
    {
      if g.info[l].kind.Input? { IdsMember(g.layers, g.info, 0, inputIds, l); }
      if g.info[l].kind.Output? { IdsMember(g.layers, g.info, 2, outputIds, l); }
    }
    if li.bindingId in inputIds { IdsOwned(g.layers, g.info, 0, inputIds, li.bindingId); }
    if li.bindingId in outputIds { IdsOwned(g.layers, g.info, 2, outputIds, li.bindingId); }
  }

  /** Listed layers of one rank have different ids. */
  lemma {:induction false} IdsDiffer(layers: seq<LayerId>, info: map<LayerId, LayerInfo>, rank: nat, ids: set<int>, a: LayerId, b: LayerId)
    requires IdsMatch(layers, info, rank, ids) && a in layers && b in layers && a in info && b in info
    requires info[a].Rank() == rank && info[b].Rank() == rank && info[a].bindingId == info[b].bindingId
    ensures a == b
  {
    var l, rest := layers[|layers| - 1], layers[..|layers| - 1];
    var ids' := if l in info && info[l].Rank() == rank then ids - {info[l].bindingId} else ids;
    assert forall x :: x in layers ==> x == l || x in rest;
    if a != l && b != l {
      IdsDiffer(rest, info, rank, ids', a, b);
    } else if a != b {
      IdsMember(rest, info, rank, ids', if a == l then b else a);
    }
  }

  /** There are as many ids as listed layers of that rank. */
  lemma {:induction false} IdsSize(g: Net, rank: nat, ids: set<int>)
    requires IdsMatch(g.layers, g.info, rank, ids) && (forall l :: l in g.layers ==> l in g.info)
    ensures |ids| == Bound(g, rank)
    decreases |g.layers|
  {
    if g.layers == [] {
      assert Ranks(g) == [];
    } else {
      var l, rest := g.layers[|g.layers| - 1], g.layers[..|g.layers| - 1];
      assert l in g.layers;
      var h := g.(layers := rest);
      IdsSize(h, rank, if g.info[l].Rank() == rank then ids - {g.info[l].bindingId} else ids);
      assert Ranks(g) == Ranks(h) + [g.info[l].Rank()];
    }
  }

  lemma {:induction false} IdsAdded(layers: seq<LayerId>, info: map<LayerId, LayerInfo>, rank: nat, ids: set<int>, q: nat,
                                    n: LayerId, li: LayerInfo)
    requires IdsMatch(layers, info, rank, ids) && q <= |layers| && n !in layers
    requires li.Rank() == rank ==> li.bindingId !in ids
    ensures IdsMatch(InsertAt(layers, q, n), info[n := li], rank, IdsWith(li, rank, ids))
    decreases |layers|
  {
    var s := InsertAt(layers, q, n);
    if q == |layers| {
      IdsFrame(layers, info, info[n := li], rank, ids);
      assert s[..|s| - 1] == layers;
      assert IdsWith(li, rank, ids) - {li.bindingId} == if li.Rank() == rank then ids else IdsWith(li, rank, ids) - {li.bindingId};
    } else {
      var l, rest := layers[|layers| - 1], layers[..|layers| - 1];
      assert s[..|s| - 1] == InsertAt(rest, q, n) && s[|s| - 1] == l && l != n;
      if l in info && info[l].Rank() == rank {
        var b := info[l].bindingId;
        IdsAdded(rest, info, rank, ids - {b}, q, n, li);
        assert IdsWith(li, rank, ids - {b}) == IdsWith(li, rank, ids) - {b};
      } else {
        IdsAdded(rest, info, rank, ids, q, n, li);
      }
    }
  }

  /** Erasing a bound layer frees its id, because no other layer has it. */
  lemma {:induction false} IdsRemoved(layers: seq<LayerId>, info: map<LayerId, LayerInfo>, rank: nat, ids: set<int>, q: nat)
    requires IdsMatch(layers, info, rank, ids) && NoDup(layers) && q < |layers| && layers[q] in info
    ensures IdsMatch(RemoveAt(layers, q), info - {layers[q]}, rank, IdsWithout(info[layers[q]], rank, ids))
    decreases |layers|
  {
    var k := layers[q];
    var s := RemoveAt(layers, q);
    var l, rest := layers[|layers| - 1], layers[..|layers| - 1];
    RemoveAtMembers(layers, |layers| - 1);
    assert RemoveAt(layers, |layers| - 1) == rest;
    if q == |layers| - 1 {
      assert s == rest;
      IdsFrame(rest, info, info - {k}, rank, IdsWithout(info[k], rank, ids));
    } else {
      NoDupDistinct(layers, q, |layers| - 1);
      assert rest[q] == k && k in rest;
      assert s[..|s| - 1] == RemoveAt(rest, q) && s[|s| - 1] == l;
      if l in info && info[l].Rank() == rank {
        var b := info[l].bindingId;
        IdsRemoved(rest, info, rank, ids - {b}, q);
        if info[k].Rank() == rank {
          IdsMember(rest, info, rank, ids - {b}, k);
        }
        assert IdsWithout(info[k], rank, ids - {b}) == IdsWithout(info[k], rank, ids) - {b};
      } else {
        IdsRemoved(rest, info, rank, ids, q);
      }
    }
  }

  /** The ids do not depend on the order of the list. */
  lemma {:induction false} IdsPermuted(t: seq<LayerId>, s: seq<LayerId>, info: map<LayerId, LayerInfo>, rank: nat, ids: set<int>)
    requires IdsMatch(t, info, rank, ids) && NoDup(t) && NoDup(s)
    requires forall l :: l in s <==> l in t
    requires forall l :: l in t ==> l in info
    ensures IdsMatch(s, info, rank, ids)
    decreases |s|
  {
    if s == [] {
      if t != [] {
        HasMember(t);
      }
    } else {
      var l, rest := s[|s| - 1], s[..|s| - 1];
      var q := IndexOf(t, l);
      assert l in s;
      RemoveAtMembers(s, |s| - 1);
      assert RemoveAt(s, |s| - 1) == rest;
      RemoveAtMembers(t, q);
      IdsRemoved(t, info, rank, ids, q);
      IdsPermuted(RemoveAt(t, q), rest, info - {l}, rank, IdsWithout(info[l], rank, ids));
      IdsFrame(rest, info - {l}, info, rank, IdsWithout(info[l], rank, ids));
      if info[l].Rank() == rank {
        IdsMember(t, info, rank, ids, l);
      }
    }
  }

  lemma {:induction false} PermutedIsValid(g: Net, h: Net, inputIds: set<int>, outputIds: set<int>, n: nat)
    requires ValidState(g, inputIds, outputIds, n) && h.Valid() && h == g.(layers := h.layers)
    ensures ValidState(h, inputIds, outputIds, n)
  {
    IdsPermuted(g.layers, h.layers, g.info, 0, inputIds);
    IdsPermuted(g.layers, h.layers, g.info, 2, outputIds);
  }

  lemma {:induction false} AddedIsLinked(g: Net, h: Net, n: LayerId, li: LayerInfo)
    requires g.Linked() && n !in g.info && h.info == g.info[n := li]
    requires h.source == g.source && h.sinks == g.sinks && h.strategies == g.strategies
    ensures h.Linked()
    ensures forall k :: InSlot(n, k) !in h.source
    ensures forall k :: h.Sinks(OutSlot(n, k)) == []
    ensures forall i :: h.StrategyOf(i) == g.StrategyOf(i)
  {
    forall i
      ensures h.SourceOK(i)
    {
      assert g.SourceOK(i);
    }
    forall o
      ensures h.SinksOK(o)
    {
      assert g.SinksOK(o);
    }
    forall k
      ensures InSlot(n, k) !in h.source
    {
      assert g.SourceOK(InSlot(n, k));
    }
    forall k
      ensures h.Sinks(OutSlot(n, k)) == []
    {
      if g.Sinks(OutSlot(n, k)) != [] {
        SinksOwned(g, OutSlot(n, k));
      }
    }
  }

  /** What every operation on the graph keeps. */
  ghost predicate ValidState(g: Net, inputIds: set<int>, outputIds: set<int>, nextGuid: nat) {
    && g.Valid()
    && IdsMatch(g.layers, g.info, 0, inputIds)
    && IdsMatch(g.layers, g.info, 2, outputIds)
    && (forall l :: l in g.info ==> l < nextGuid)
  }

  lemma {:induction false} RegisteredIsValid(g: Net, h: Net, inputIds: set<int>, outputIds: set<int>, q: nat, n: LayerId, li: LayerInfo)
    requires ValidState(g, inputIds, outputIds, n) && h.Valid() && ListedAt(g, h, q, n, li)
    requires li.kind.Input? ==> li.bindingId !in inputIds
    requires li.kind.Output? ==> li.bindingId !in outputIds
    ensures ValidState(h, IdsWith(li, 0, inputIds), IdsWith(li, 2, outputIds), n + 1)
  {
    IdsAdded(g.layers, g.info, 0, inputIds, q, n, li);
    IdsAdded(g.layers, g.info, 2, outputIds, q, n, li);
  }

  lemma {:induction false} ListingUndone(g: Net, h: Net, q: nat, n: LayerId, li: LayerInfo)
    requires ListedAt(g, h, q, n, li)
    ensures q < |h.layers| && RemoveAt(h.layers, q) == g.layers && h.info - {n} == g.info
  {
    RemoveInserted(g.layers, q, n);
    RemoveAdded(g.info, n, li);
  }

  lemma {:induction false} StillValid(g: Net, inputIds: set<int>, outputIds: set<int>, n: nat, m: nat)
    requires ValidState(g, inputIds, outputIds, n) && n <= m
    ensures ValidState(g, inputIds, outputIds, m)
  {
  }

  lemma {:induction false} AddKeepsOrder(g: Net, h: Net, q: nat, n: LayerId, li: LayerInfo)
    requires g.Valid() && q == AddPosition(g, li)
    requires ListedAt(g, h, q, n, li) && li.WellShaped() && h.source == g.source
    ensures Partitioned(g) ==> Partitioned(h)
    ensures Sorted(g) ==> Sorted(h)
  {
    if Partitioned(g) {
      AddKeepsPartition(g, h, n, li);
      if Forward(g) {
        ForwardKept(g, h, q, n, li);
      }
    }
  }

  /** Editing edges alone keeps the graph valid. */
  lemma {:induction false} EdgesKeepValid(g: Net, h: Net, inputIds: set<int>, outputIds: set<int>, n: nat)
    requires ValidState(g, inputIds, outputIds, n) && SameLayers(g, h) && h.Linked()
    ensures ValidState(h, inputIds, outputIds, n)
  {
  }

  /** h is g with layer n, of type li, listed at position q; no edge changes. */
  ghost predicate Entered(g: Net, h: Net, q: nat, n: LayerId, li: LayerInfo) {
    ListedAt(g, h, q, n, li) && h.source == g.source && h.sinks == g.sinks && h.strategies == g.strategies
  }

  lemma {:induction false} EnteredThenInserted(g: Net, m: Net, h: Net, i: InSlot, q: nat, n: LayerId, li: LayerInfo)
    requires Entered(g, m, q, n, li) && InsertedBefore(m, h, i, n)
    requires forall j :: m.StrategyOf(j) == g.StrategyOf(j)
    ensures NewBefore(g, h, i, q, n, li)
  {
  }

  /** h is g with layer n, of type li, listed at position q and put in front of input slot i. */
  ghost predicate NewBefore(g: Net, h: Net, i: InSlot, q: nat, n: LayerId, li: LayerInfo) {
    ListedAt(g, h, q, n, li) && PutBefore(g, h, i, n)
  }

  /** Where a layer inserted before input slot i is asked to go: after the parent, else before the child. */
  ghost function SpotBefore(g: Net, i: InSlot): nat {
    if i in g.source then Pos(g, g.source[i].layer) + 1 else Pos(g, i.layer)
  }

  /** No re-sorting is needed after an insertion before an input slot. */
  lemma {:induction false} NewBeforeKeepsOrder(g: Net, h: Net, i: InSlot, r: nat, q: nat, n: LayerId, li: LayerInfo)
    requires g.Valid() && g.IsIn(i) && InsertionPoint(g, SpotBefore(g, i), r, q)
    requires NewBefore(g, h, i, q, n, li) && li.WellShaped() && li.Rank() == 1
    ensures Partitioned(g) ==> Partitioned(h)
    ensures Sorted(g) ==> Sorted(h)
  {
    assert g.SourceOK(i);
    if Partitioned(g) {
      PartitionKept(g, h, SpotBefore(g, i), r, q, n, li);
      if Forward(g) {
        if i in g.source {
          InsertionPointAfter(g, g.source[i].layer, r, q);
        } else {
          InsertionPointBefore(g, i.layer, r, q);
        }
        forall j | j in h.source
          ensures FitsAround(g, h, q, n, j)
        {
          EdgeBefore(g, h, i, q, n, j);
        }
        ForwardKept(g, h, q, n, li);
      }
    }
  }

  lemma {:induction false} EdgeBefore(g: Net, h: Net, i: InSlot, q: nat, n: LayerId, j: InSlot)
    requires PutBefore(g, h, i, n) && j in h.source && i.layer in g.info && q <= Pos(g, i.layer)
    requires i in g.source ==> g.source[i].layer in g.info && Pos(g, g.source[i].layer) < q
    ensures FitsAround(g, h, q, n, j)
  {
  }

  /** Inserting an identity layer into an edge is a splice. */
  lemma {:induction false} NewBeforeSplices(g: Net, h: Net, i: InSlot, q: nat, n: LayerId, li: LayerInfo)
    requires g.Valid() && h.Linked() && i in g.source && NewBefore(g, h, i, q, n, li)
    requires IsIdentity(li.kind) && li.WellShaped()
    ensures Spliced(g, h)
  {
    forall j | g.IsIn(j)
      ensures SplicedAt(g, h, j)
    {
    }
    forall j | j in h.source && j.layer !in g.info
      ensures j.index == 0 && h.source[j].layer in g.info
    {
      assert g.SourceOK(i) && g.SourceOK(j);
    }
  }

  /** The edges of h are those of g with layer n behind output slot o: n has taken over o's readers, in order,
      and is o's only reader. */
  ghost predicate PutAfter(g: Net, h: Net, o: OutSlot, n: LayerId) {
    && h.source == Redirect(g.source, o, OutSlot(n, 0))[InSlot(n, 0) := o]
    && h.Sinks(OutSlot(n, 0)) == g.Sinks(o) && h.Sinks(o) == [InSlot(n, 0)]
    && (forall p :: p != o && p != OutSlot(n, 0) ==> h.Sinks(p) == g.Sinks(p))
    && (forall j :: j in g.source && g.source[j] != o ==> h.StrategyOf(j) == g.StrategyOf(j))
    && (forall j :: j in h.source && (j !in g.source || g.source[j] == o) ==> h.StrategyOf(j) == Undefined)
  }

  ghost predicate TakenOver(g: Net, h: Net, o: OutSlot, n: LayerId) {
    SameLayers(g, h) && PutAfter(g, h, o, n)
  }

  /** h is g with layer n, of type li, listed at position q and put behind output slot o. */
  ghost predicate NewAfter(g: Net, h: Net, o: OutSlot, q: nat, n: LayerId, li: LayerInfo) {
    ListedAt(g, h, q, n, li) && PutAfter(g, h, o, n)
  }

  lemma {:induction false} MovedThenLinked(g: Net, m: Net, o: OutSlot, n: LayerId)
    requires m.Linked() && m.IsOut(o) && m.IsIn(InSlot(n, 0)) && o.layer != n
    requires InSlot(n, 0) !in g.source && g.Sinks(OutSlot(n, 0)) == [] && Moved(g, m, o, OutSlot(n, 0))
    ensures TakenOver(g, m.Link(o, InSlot(n, 0)), o, n)
  {
    LinkKeeps(m, o, InSlot(n, 0));
  }

  lemma {:induction false} EnteredThenTakenOver(g: Net, m: Net, h: Net, o: OutSlot, q: nat, n: LayerId, li: LayerInfo)
    requires Entered(g, m, q, n, li) && TakenOver(m, h, o, n)
    requires forall j :: m.StrategyOf(j) == g.StrategyOf(j)
    ensures NewAfter(g, h, o, q, n, li)
  {
  }

  /** No re-sorting is needed after an insertion after an output slot. */
  lemma {:induction false} NewAfterKeepsOrder(g: Net, h: Net, o: OutSlot, r: nat, q: nat, n: LayerId, li: LayerInfo)
    requires g.Valid() && g.IsOut(o) && InsertionPoint(g, Pos(g, o.layer) + 1, r, q)
    requires NewAfter(g, h, o, q, n, li) && li.WellShaped() && li.Rank() == 1
    ensures Partitioned(g) ==> Partitioned(h)
    ensures Sorted(g) ==> Sorted(h)
  {
    if Partitioned(g) {
      PartitionKept(g, h, Pos(g, o.layer) + 1, r, q, n, li);
      if Forward(g) {
        InsertionPointAfter(g, o.layer, r, q);
        forall j | j in h.source
          ensures FitsAround(g, h, q, n, j)
        {
          assert g.SourceOK(j);
        }
        ForwardKept(g, h, q, n, li);
      }
    }
  }

  lemma {:induction false} InsertedAfterDone(g: Net, m: Net, h: Net, o: OutSlot, r: nat, q: nat, n: LayerId, li: LayerInfo,
                                             inputIds: set<int>, outputIds: set<int>, next: nat)
    requires g.Valid() && g.IsOut(o) && InsertionPoint(g, Pos(g, o.layer) + 1, r, q)
    requires Entered(g, m, q, n, li) && li.WellShaped() && li.Rank() == 1
    requires ValidState(m, inputIds, outputIds, next)
    requires h.Linked() && TakenOver(m, h, o, n)
    ensures NewAfter(g, h, o, q, n, li) && ValidState(h, inputIds, outputIds, next)
    ensures Partitioned(g) ==> Partitioned(h)
    ensures Sorted(g) ==> Sorted(h)
  {
    AddedIsLinked(g, m, n, li);
    EnteredThenTakenOver(g, m, h, o, q, n, li);
    EdgesKeepValid(m, h, inputIds, outputIds, next);
    NewAfterKeepsOrder(g, h, o, r, q, n, li);
  }

  lemma {:induction false} InsertedBeforeDone(g: Net, m: Net, h: Net, i: InSlot, r: nat, q: nat, n: LayerId, li: LayerInfo,
                                              inputIds: set<int>, outputIds: set<int>, next: nat)
    requires g.Valid() && g.IsIn(i) && InsertionPoint(g, SpotBefore(g, i), r, q)
    requires Entered(g, m, q, n, li) && li.WellShaped() && li.Rank() == 1
    requires ValidState(m, inputIds, outputIds, next)
    requires h.Linked() && InsertedBefore(m, h, i, n)
    ensures NewBefore(g, h, i, q, n, li) && ValidState(h, inputIds, outputIds, next)
    ensures Partitioned(g) ==> Partitioned(h)
    ensures Sorted(g) ==> Sorted(h)
  {
    AddedIsLinked(g, m, n, li);
    EnteredThenInserted(g, m, h, i, q, n, li);
    EdgesKeepValid(m, h, inputIds, outputIds, next);
    NewBeforeKeepsOrder(g, h, i, r, q, n, li);
  }

  lemma {:induction false} NewAfterSplices(g: Net, h: Net, o: OutSlot, q: nat, n: LayerId, li: LayerInfo)
    requires g.Valid() && h.Linked() && g.IsOut(o) && NewAfter(g, h, o, q, n, li)
    requires IsIdentity(li.kind) && li.WellShaped()
    ensures Spliced(g, h)
  {
    forall j | g.IsIn(j)
      ensures SplicedAt(g, h, j)
    {
      assert g.SourceOK(j);
    }
    forall j | j in h.source && j.layer !in g.info
      ensures j.index == 0 && h.source[j].layer in g.info
    {
      assert g.SourceOK(j);
    }
  }

  /** h is g without layer l and the edges that touched it; other edges keep their strategies. */
  ghost predicate Erased(g: Net, h: Net, l: LayerId) {
    && Delisted(g, h, l)
    && (forall i :: i in h.source ==> i in g.source && h.source[i] == g.source[i] && h.StrategyOf(i) == g.StrategyOf(i))
    && (forall i :: i in g.source ==> (i in h.source <==> i.layer != l && g.source[i].layer != l))
    && (forall p :: Subsequence(h.Sinks(p), g.Sinks(p)))
  }

  lemma {:induction false} SameStrategies(m: Net, h: Net)
    requires h.source == m.source && h.sinks == m.sinks && h.strategies == m.strategies
    ensures forall i :: h.StrategyOf(i) == m.StrategyOf(i)
  {
  }

  /** What is left of the destroyed layer once its slots are gone. */
  lemma {:induction false} ErasedIsLinked(g: Net, m: Net, h: Net, l: LayerId)
    requires g.Linked() && m.Linked() && l in g.info && Shedding(g, m, l)
    requires forall i :: i in m.source ==> i.layer != l && m.source[i].layer != l
    requires h.info == m.info - {l} && h.source == m.source && h.sinks == m.sinks && h.strategies == m.strategies
    ensures h.Linked()
    ensures forall i :: h.StrategyOf(i) == m.StrategyOf(i)
  {
    SameStrategies(m, h);
    forall i
      ensures h.SourceOK(i)
    {
      assert m.SourceOK(i);
    }
    forall o
      ensures h.SinksOK(o)
    {
      assert m.SinksOK(o);
    }
  }

  lemma {:induction false} ErasedKeepsOrder(g: Net, h: Net, l: LayerId)
    requires g.Valid() && Erased(g, h, l)
    ensures Partitioned(g) ==> Partitioned(h)
    ensures Sorted(g) ==> Sorted(h)
  {
    DelistedKeeps(g, h, l);
    DelistedForward(g, h, l);
  }

  lemma {:induction false} ErasedIsValid(g: Net, h: Net, l: LayerId, inputIds: set<int>, outputIds: set<int>, n: nat)
    requires ValidState(g, inputIds, outputIds, n) && h.Linked() && Erased(g, h, l)
    ensures ValidState(h, IdsWithout(g.info[l], 0, inputIds), IdsWithout(g.info[l], 2, outputIds), n)
  {
    DelistedKeeps(g, h, l);
    IdsRemoved(g.layers, g.info, 0, inputIds, Pos(g, l));
    IdsRemoved(g.layers, g.info, 2, outputIds, Pos(g, l));
  }

  lemma {:induction false} DiscardedIsErased(g: Net, m: Net, h: Net, l: LayerId, inputIds: set<int>, outputIds: set<int>, n: nat)
    requires ValidState(g, inputIds, outputIds, n) && m.Linked() && Shedding(g, m, l) && Delisted(g, h, l)
    requires forall i :: i in m.source ==> i.layer != l && m.source[i].layer != l
    requires h.source == m.source && h.sinks == m.sinks && h.strategies == m.strategies
    ensures Erased(g, h, l)
    ensures ValidState(h, IdsWithout(g.info[l], 0, inputIds), IdsWithout(g.info[l], 2, outputIds), n)
  {
    ErasedIsLinked(g, m, h, l);
    ErasedIsValid(g, h, l, inputIds, outputIds, n);
  }

  lemma {:induction false} OverriddenKeepsValid(g: Net, h: Net, inputIds: set<int>, outputIds: set<int>, n: nat)
    requires ValidState(g, inputIds, outputIds, n) && h == g.(overridden := h.overridden)
    requires forall i :: i in h.overridden ==> g.IsIn(i)
    ensures ValidState(h, inputIds, outputIds, n)
    ensures forall x :: h.StrategyOf(x) == g.StrategyOf(x)
  {
    forall i
      ensures h.SourceOK(i)
    {
      assert g.SourceOK(i);
    }
    forall o
      ensures h.SinksOK(o)
    {
      assert g.SinksOK(o);
    }
  }
}
