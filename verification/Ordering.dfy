/** The order of the layer list: Inputs, then middle layers, then Outputs, and every edge forward. */
module Ordering {
  import opened Sequences
  import opened NetGraph
  import opened Evaluation

  function RankOf(g: Net, l: LayerId): nat {
    if l in g.info then g.info[l].Rank() else 0
  }

  function Ranks(g: Net): (r: seq<nat>)
    ensures |r| == |g.layers|
    ensures forall k {:trigger r[k]} :: 0 <= k < |r| ==> r[k] == RankOf(g, g.layers[k])
  {
    seq(|g.layers|, k requires 0 <= k < |g.layers| => RankOf(g, g.layers[k]))
  }

  /** Inputs form a prefix and Outputs a suffix. */
  ghost predicate Partitioned(g: Net) {
    NonDecreasing(Ranks(g))
  }

  ghost function Pos(g: Net, l: LayerId): nat {
    IndexOf(g.layers, l)
  }

  ghost predicate Forward(g: Net) {
    forall i :: i in g.source ==> Pos(g, g.source[i].layer) < Pos(g, i.layer)
  }

  ghost predicate Sorted(g: Net)
  {
    Partitioned(g) && Forward(g)
  }

  lemma {:induction false} SortedIsAcyclic(g: Net)
    requires g.Valid() && Forward(g)
    ensures Acyclic(g)
  {
    var rank := map l | l in g.info :: Pos(g, l);
    forall i | i in g.source
      ensures i.layer in rank && g.source[i].layer in rank && rank[g.source[i].layer] < rank[i.layer]
    {
      assert g.SourceOK(i);
    }
    assert Ranked(g, rank);
  }

  /** Where a middle layer goes when it is asked to go before position p: back over the Outputs
      just before p, to r, then forward over Inputs and Constants, to q. */
  ghost predicate InsertionPoint(g: Net, p: nat, r: nat, q: nat)
    requires g.Listed()
  {
    && r <= p <= |g.layers| && r <= q <= |g.layers|
    && (forall k :: r <= k < p ==> g.info[g.layers[k]].kind.Output?)
    && (r > 0 ==> !g.info[g.layers[r - 1]].kind.Output?)
    && (forall k :: r <= k < q ==> g.info[g.layers[k]].kind.Input? || g.info[g.layers[k]].kind.Constant?)
    && (q < |g.layers| ==> !g.info[g.layers[q]].kind.Input? && !g.info[g.layers[q]].kind.Constant?)
  }

  /** h lists the new layer n, of type li, at position q. */
  ghost predicate ListedAt(g: Net, h: Net, q: nat, n: LayerId, li: LayerInfo) {
    && q <= |g.layers| && n !in g.info && h.layers == InsertAt(g.layers, q, n) && h.info == g.info[n := li]
    && h.overridden == g.overridden
  }

  lemma {:induction false} ListedAtKeeps(g: Net, h: Net, q: nat, n: LayerId, li: LayerInfo)
    requires g.Listed() && ListedAt(g, h, q, n, li) && li.WellShaped()
    ensures h.Listed()
    ensures Pos(h, n) == q
    ensures forall l :: l in g.info ==> Pos(h, l) == if Pos(g, l) < q then Pos(g, l) else Pos(g, l) + 1
  {
    InsertAtMembers(g.layers, q, n);
    forall i | i in h.overridden
      ensures h.IsIn(i)
    {
      assert g.IsIn(i);
    }
    forall l | l in g.info
      ensures Pos(h, l) == if Pos(g, l) < q then Pos(g, l) else Pos(g, l) + 1
    {
      InsertAtIndex(g.layers, q, n, l);
    }
    IndexOfUnique(h.layers, q);
  }

  /** The layers of g keep their order in h. */
  ghost predicate OrderKept(g: Net, h: Net) {
    forall a, b :: a in g.info && b in g.info ==> a in h.info && b in h.info && (Pos(g, a) < Pos(g, b) <==> Pos(h, a) < Pos(h, b))
  }

  lemma {:induction false} ListedKeepsOrder(g: Net, h: Net, q: nat, n: LayerId, li: LayerInfo)
    requires g.Listed() && ListedAt(g, h, q, n, li) && li.WellShaped()
    ensures OrderKept(g, h)
  {
    ListedAtKeeps(g, h, q, n, li);
  }

  lemma {:induction false} RanksOfInsert(g: Net, h: Net, q: nat, n: LayerId, li: LayerInfo)
    requires ListedAt(g, h, q, n, li) && n !in g.layers
    ensures Ranks(h) == InsertAt(Ranks(g), q, li.Rank())
  {
    var r := InsertAt(Ranks(g), q, li.Rank());
    forall k | 0 <= k < |r|
      ensures Ranks(h)[k] == r[k]
    {
      if k < q { assert h.layers[k] == g.layers[k]; assert g.layers[k] in g.layers; }
      if k > q { assert h.layers[k] == g.layers[k - 1]; assert g.layers[k - 1] in g.layers; }
    }
  }

  /** The tensor infos set on the input slots of layers other than l. */
  function ForgetLayer(m: map<InSlot, TensorInfo>, l: LayerId): (r: map<InSlot, TensorInfo>)
    ensures forall i :: i in r <==> i in m && i.layer != l
    ensures forall i :: i in r ==> r[i] == m[i]
  {
    map i | i in m && i.layer != l :: m[i]
  }

  /** h is g without layer l; edges aside. */
  ghost predicate Delisted(g: Net, h: Net, l: LayerId) {
    && l in g.info && l in g.layers
    && h.layers == RemoveAt(g.layers, Pos(g, l)) && h.info == g.info - {l}
    && h.overridden == ForgetLayer(g.overridden, l)
  }

  lemma {:induction false} RanksOfRemove(g: Net, h: Net, l: LayerId)
    requires g.Listed() && Delisted(g, h, l)
    ensures Ranks(h) == RemoveAt(Ranks(g), Pos(g, l))
  {
    RemoveAtMembers(g.layers, Pos(g, l));
    var r := RemoveAt(Ranks(g), Pos(g, l));
    forall k | 0 <= k < |r|
      ensures Ranks(h)[k] == r[k]
    {
      assert h.layers[k] in h.layers;
      assert h.layers[k] == g.layers[if k < Pos(g, l) then k else k + 1];
    }
  }

  lemma {:induction false} DelistedKeeps(g: Net, h: Net, l: LayerId)
    requires g.Listed() && Delisted(g, h, l)
    ensures h.Listed()
    ensures forall m :: m in h.info ==> Pos(h, m) == if Pos(g, m) < Pos(g, l) then Pos(g, m) else Pos(g, m) - 1
    ensures forall m :: m in h.info ==> Pos(g, m) != Pos(g, l)
    ensures Partitioned(g) ==> Partitioned(h)
  {
    RemoveAtMembers(g.layers, Pos(g, l));
    forall m | m in h.info
      ensures Pos(h, m) == if Pos(g, m) < Pos(g, l) then Pos(g, m) else Pos(g, m) - 1
      ensures Pos(g, m) != Pos(g, l)
    {
      assert m in g.layers && g.layers[Pos(g, m)] == m;
      RemoveAtIndex(g.layers, Pos(g, l), m);
    }
    if Partitioned(g) {
      RanksOfRemove(g, h, l);
      RemoveKeepsOrder(Ranks(g), Pos(g, l));
    }
    forall i | i in h.overridden
      ensures h.IsIn(i)
    {
      assert g.IsIn(i);
    }
  }

  lemma {:induction false} DelistedForward(g: Net, h: Net, l: LayerId)
    requires g.Valid() && Delisted(g, h, l)
    requires forall i :: i in h.source ==> i in g.source && h.source[i] == g.source[i] && i.layer != l && g.source[i].layer != l
    ensures Forward(g) ==> Forward(h)
  {
    DelistedKeeps(g, h, l);
    if Forward(g) {
      forall i | i in h.source
        ensures Pos(h, h.source[i].layer) < Pos(h, i.layer)
      {
        assert g.SourceOK(i);
      }
    }
  }

  /** Inserting a layer between layers of lower and of higher rank keeps the partition. */
  lemma {:induction false} PartitionedInsert(g: Net, h: Net, q: nat, n: LayerId, li: LayerInfo)
    requires g.Listed() && Partitioned(g) && ListedAt(g, h, q, n, li)
    requires q > 0 ==> Ranks(g)[q - 1] <= li.Rank()
    requires q < |g.layers| ==> li.Rank() <= Ranks(g)[q]
    ensures Partitioned(h)
  {
    RanksOfInsert(g, h, q, n, li);
    InsertKeepsOrder(Ranks(g), q, li.Rank());
  }

  /** Despite the position fix-ups, a middle layer lands between the Inputs and the Outputs. */
  lemma {:induction false} PartitionKept(g: Net, h: Net, p: nat, r: nat, q: nat, n: LayerId, li: LayerInfo)
    requires g.Listed() && Partitioned(g) && InsertionPoint(g, p, r, q)
    requires ListedAt(g, h, q, n, li) && li.Rank() == 1
    ensures Partitioned(h)
  {
    assert q > 0 ==> Ranks(g)[q - 1] <= 1;
    assert q < |g.layers| ==> Ranks(g)[q] >= 1;
    PartitionedInsert(g, h, q, n, li);
  }

  /** The edge into i is an old one, or leads from a layer before position q to the new layer n, or from n to a layer
      from position q on. */
  ghost predicate FitsAround(g: Net, h: Net, q: nat, n: LayerId, i: InSlot)
    requires i in h.source
  {
    || (i in g.source && h.source[i] == g.source[i])
    || (i.layer == n && h.source[i].layer in g.info && Pos(g, h.source[i].layer) < q)
    || (h.source[i].layer == n && i.layer in g.info && q <= Pos(g, i.layer))
  }

  lemma {:induction false} EdgeForwardKept(g: Net, h: Net, q: nat, n: LayerId, i: InSlot)
    requires i in h.source && FitsAround(g, h, q, n, i) && g.SourceOK(i)
    requires i in g.source ==> Pos(g, g.source[i].layer) < Pos(g, i.layer)
    requires Pos(h, n) == q && forall l :: l in g.info ==> Pos(h, l) == if Pos(g, l) < q then Pos(g, l) else Pos(g, l) + 1
    ensures Pos(h, h.source[i].layer) < Pos(h, i.layer)
  {
  }

  /** The new edges of h touch only the new layer n, which sits after its source and before its readers. */
  lemma {:induction false} ForwardKept(g: Net, h: Net, q: nat, n: LayerId, li: LayerInfo)
    requires g.Valid() && Forward(g) && ListedAt(g, h, q, n, li) && li.WellShaped()
    requires forall i :: i in h.source ==> FitsAround(g, h, q, n, i)
    ensures Forward(h)
  {
    ListedAtKeeps(g, h, q, n, li);
    forall i | i in h.source
      ensures Pos(h, h.source[i].layer) < Pos(h, i.layer)
    {
      assert g.SourceOK(i);
      EdgeForwardKept(g, h, q, n, i);
    }
  }

  /** Going in just after layer l, which is no Output, means going after l and before every later
      layer that reads something. */
  lemma {:induction false} InsertionPointAfter(g: Net, l: LayerId, r: nat, q: nat)
    requires g.Listed() && l in g.info && !g.info[l].kind.Output? && InsertionPoint(g, Pos(g, l) + 1, r, q)
    ensures Pos(g, l) < q
    ensures forall c :: c in g.info && g.info[c].numIn > 0 && Pos(g, l) < Pos(g, c) ==> q <= Pos(g, c)
  {
    assert l in g.layers;
    forall c | c in g.info && g.info[c].numIn > 0 && Pos(g, l) < Pos(g, c)
      ensures q <= Pos(g, c)
    {
      assert c in g.layers;
    }
  }

  /** Going in just before a layer that reads something means going before it. */
  lemma {:induction false} InsertionPointBefore(g: Net, c: LayerId, r: nat, q: nat)
    requires g.Listed() && c in g.info && g.info[c].numIn > 0 && InsertionPoint(g, Pos(g, c), r, q)
    ensures q <= Pos(g, c)
  {
    assert c in g.layers;
  }

  /** How many layers of one rank are listed: 0 for Inputs, 2 for Outputs. */
  ghost function Bound(g: Net, rank: nat): nat {
    Count(Ranks(g), rank)
  }

  /** In a partitioned list the Inputs are exactly the first ones, as many as there are Inputs. */
  lemma {:induction false} InputsArePrefix(g: Net)
    requires Partitioned(g)
    ensures forall k :: 0 <= k < |g.layers| ==> (Ranks(g)[k] == 0 <==> k < Bound(g, 0))
  {
    forall k | 0 <= k < |g.layers|
      ensures Ranks(g)[k] == 0 <==> k < Bound(g, 0)
    {
      CountPrefix(Ranks(g), 0, k);
    }
  }

  /** ... and the Outputs exactly the last ones. */
  lemma {:induction false} OutputsAreSuffix(g: Net)
    requires Partitioned(g)
    ensures forall k :: 0 <= k < |g.layers| ==> (Ranks(g)[k] == 2 <==> |g.layers| - Bound(g, 2) <= k)
  {
    forall k | 0 <= k < |g.layers|
      ensures Ranks(g)[k] == 2 <==> |g.layers| - Bound(g, 2) <= k
    {
      CountSuffix(Ranks(g), 2, k);
    }
  }

  lemma {:induction false} BoundAtMost(g: Net, rank: nat)
    ensures Bound(g, rank) <= |g.layers|
  {
    CountAtMost(Ranks(g), rank);
  }

  /** In a partitioned list, the position of the first Output. */
  ghost function FirstOutput(g: Net): nat {
    BoundAtMost(g, 2);
    |g.layers| - Bound(g, 2)
  }

  /** How many Inputs there are. */
  ghost function Inputs(g: Net): nat {
    Bound(g, 0)
  }

  /** The list is Inputs, then middle layers, then Outputs. */
  lemma {:induction false} Sections(g: Net)
    requires g.Valid() && Partitioned(g)
    ensures Inputs(g) <= FirstOutput(g) <= |g.layers|
    ensures forall k :: 0 <= k < |g.layers| ==> g.layers[k] in g.info
    ensures forall k :: 0 <= k < |g.layers| ==> (g.info[g.layers[k]].kind.Input? <==> k < Inputs(g))
    ensures forall k :: 0 <= k < |g.layers| ==> (g.info[g.layers[k]].kind.Output? <==> FirstOutput(g) <= k)
  {
    InputsArePrefix(g);
    OutputsAreSuffix(g);
    BoundAtMost(g, 0);
    forall k | 0 <= k < |g.layers|
      ensures g.layers[k] in g.info && Ranks(g)[k] == g.info[g.layers[k]].Rank()
    {
      assert g.layers[k] in g.layers;
    }
    assert FirstOutput(g) < |g.layers| ==> Ranks(g)[FirstOutput(g)] == 2;
  }

  /** The position AddLayer chooses: Inputs after the Inputs, Constants too, Outputs at the end, all
      others before the Outputs. */
  ghost function AddPosition(g: Net, li: LayerInfo): (q: nat)
    ensures q <= |g.layers|
  {
    BoundAtMost(g, 0);
    BoundAtMost(g, 2);
    if li.kind.Input? || li.kind.Constant? then Bound(g, 0)
    else if li.kind.Output? then |g.layers|
    else |g.layers| - Bound(g, 2)
  }

  lemma {:induction false} AddKeepsPartition(g: Net, h: Net, n: LayerId, li: LayerInfo)
    requires g.Listed() && Partitioned(g)
    requires ListedAt(g, h, AddPosition(g, li), n, li)
    ensures Partitioned(h)
  {
    InputsArePrefix(g);
    OutputsAreSuffix(g);
    PartitionedInsert(g, h, AddPosition(g, li), n, li);
  }

  /** Where layer n, of a type, stands in h among the layers of g: a new Input or Constant behind all Inputs and in front of all
      others, a new Output behind everything, any other layer in front of the Outputs and behind all others. */
  ghost predicate StandsRight(g: Net, h: Net, n: LayerId, kind: LayerType) {
    forall l :: l in g.info ==>
      if kind.Input? || kind.Constant? then (if g.info[l].kind.Input? then Pos(h, l) < Pos(h, n) else Pos(h, n) < Pos(h, l))
      else if kind.Output? then Pos(h, l) < Pos(h, n)
      else (if g.info[l].kind.Output? then Pos(h, n) < Pos(h, l) else Pos(h, l) < Pos(h, n))
  }

  lemma {:induction false} AddedStandsRight(g: Net, h: Net, n: LayerId, li: LayerInfo)
    requires g.Valid() && Partitioned(g) && li.WellShaped() && ListedAt(g, h, AddPosition(g, li), n, li)
    ensures StandsRight(g, h, n, li.kind)
  {
    Sections(g);
    ListedAtKeeps(g, h, AddPosition(g, li), n, li);
    forall l | l in g.info
      ensures Pos(g, l) < |g.layers| && g.layers[Pos(g, l)] == l
    {
      assert l in g.layers;
    }
  }

  lemma {:induction false} Added(g: Net, h: Net, q: nat, n: LayerId, li: LayerInfo)
    requires g.Valid() && li.WellShaped() && q == AddPosition(g, li) && ListedAt(g, h, q, n, li)
    ensures Pos(h, n) == q && OrderKept(g, h) && (Partitioned(g) ==> StandsRight(g, h, n, li.kind))
  {
    ListedAtKeeps(g, h, q, n, li);
    ListedKeepsOrder(g, h, q, n, li);
    if Partitioned(g) {
      AddedStandsRight(g, h, n, li);
    }
  }

  /** Inputs stay in the order in which they were added, and so do Outputs. */
  lemma {:induction false} AddedInOrder(g: Net, h: Net, k: Net, a: LayerId, b: LayerId, li: LayerInfo, li': LayerInfo)
    requires g.Valid() && h.Valid() && Partitioned(g) && li.WellShaped() && li'.WellShaped()
    requires ListedAt(g, h, AddPosition(g, li), a, li) && ListedAt(h, k, AddPosition(h, li'), b, li')
    requires (li.kind.Input? && li'.kind.Input?) || (li.kind.Output? && li'.kind.Output?)
    ensures Pos(k, a) < Pos(k, b)
  {
    AddKeepsPartition(g, h, a, li);
    AddedStandsRight(h, k, b, li');
  }
}
