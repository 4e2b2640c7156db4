/** Replacing a subgraph by another one: what happens to the edges, and when the values stay the same. */
module Substitution {
  import opened Sequences
  import opened NetGraph
  import opened Edges
  import opened Evaluation
  import opened Ordering
  import opened Rewrites
  import opened LayerEdits

  /** A subgraph: its layers, and the slots through which it is connected to the rest, in order. */
  datatype View = View(layers: seq<LayerId>, inputs: seq<InSlot>, outputs: seq<OutSlot>)

  /** Where input slot i reads once its connection at from[k] has gone to to[k], for all k < n. */
  ghost predicate InputMoved(g: Net, h: Net, from: seq<InSlot>, to: seq<InSlot>, n: nat, i: InSlot)
    requires |from| == |to|
  {
    var k, t := IndexOf(from, i), IndexOf(to, i);
    if t < n && t < |to| && from[t] in g.source then
      i in h.source && h.source[i] == g.source[from[t]] && h.StrategyOf(i) == Undefined
    else if k < n && k < |from| then
      i !in h.source
    else
      && (i in h.source <==> i in g.source)
      && (i in g.source ==> h.source[i] == g.source[i] && h.StrategyOf(i) == g.StrategyOf(i))
  }

  /** The tensor info set on a slot whose connection moved has been copied along. */
  ghost predicate InfoMoved(g: Net, h: Net, from: seq<InSlot>, to: seq<InSlot>, n: nat, i: InSlot)
    requires |from| == |to|
  {
    var t := IndexOf(to, i);
    if t < n && t < |to| && from[t] in g.source && from[t] in g.overridden then
      i in h.overridden && h.overridden[i] == g.overridden[from[t]]
    else
      (i in h.overridden <==> i in g.overridden) && (i in g.overridden ==> h.overridden[i] == g.overridden[i])
  }

  /** The list of p is touched by moving the connections of the first n slots of from. */
  ghost predicate Feeds(g: Net, from: seq<InSlot>, n: nat, p: OutSlot) {
    exists k :: 0 <= k < n && k < |from| && from[k] in g.source && g.source[from[k]] == p
  }

  ghost predicate InputsMoved(g: Net, h: Net, from: seq<InSlot>, to: seq<InSlot>, n: nat)
    requires |from| == |to|
  {
    && h.layers == g.layers && h.info == g.info
    && (forall i :: InputMoved(g, h, from, to, n, i))
    && (forall i :: InfoMoved(g, h, from, to, n, i))
    && (forall p :: Feeds(g, from, n, p) || h.Sinks(p) == g.Sinks(p))
  }

  /** The substitute's input slots are not among the old ones. */
  ghost predicate FreshInputs(g: Net, from: seq<InSlot>, to: seq<InSlot>) {
    && |from| == |to| && NoDup(from) && NoDup(to)
    && (forall i :: i in from ==> i !in to && g.IsIn(i))
    && (forall i :: i in to ==> g.IsIn(i))
  }

  /** Each of the first n connections has a free slot to go to. */
  ghost predicate Free(g: Net, from: seq<InSlot>, to: seq<InSlot>, n: nat)
    requires n <= |from| == |to|
  {
    forall k :: 0 <= k < n && from[k] in g.source ==> to[k] !in g.source
  }

  lemma {:induction false} InputsMovedStart(g: Net, from: seq<InSlot>, to: seq<InSlot>)
    requires |from| == |to|
    ensures InputsMoved(g, g, from, to, 0)
  {
  }

  /** h' is h with input slot j reading what i read before, and i nothing. */
  ghost predicate SwappedEdge(h: Net, h': Net, i: InSlot, j: InSlot) {
    && i in h.source
    && h'.layers == h.layers && h'.info == h.info
    && h'.source == (h.source - {i})[j := h.source[i]]
    && h'.StrategyOf(j) == Undefined
    && (forall x :: x in h.source && x != i && x != j ==> h'.StrategyOf(x) == h.StrategyOf(x))
    && (forall p :: p != h.source[i] ==> h'.Sinks(p) == h.Sinks(p))
  }

  /** j also has the tensor info that was set on i. */
  ghost predicate Swapped(h: Net, h': Net, i: InSlot, j: InSlot) {
    && SwappedEdge(h, h', i, j)
    && h'.overridden == if i in h.overridden then h.overridden[j := h.overridden[i]] else h.overridden
  }

  lemma {:induction false} InputMovedNext(g: Net, h: Net, h': Net, from: seq<InSlot>, to: seq<InSlot>, n: nat, i: InSlot)
    requires FreshInputs(g, from, to) && n < |from| && from[n] in g.source
    requires InputMoved(g, h, from, to, n, i) && InfoMoved(g, h, from, to, n, i)
    requires InputMoved(g, h, from, to, n, from[n]) && InfoMoved(g, h, from, to, n, from[n])
    requires InputMoved(g, h, from, to, n, to[n]) && InfoMoved(g, h, from, to, n, to[n])
    requires from[n] in h.source && Swapped(h, h', from[n], to[n])
    ensures InputMoved(g, h', from, to, n + 1, i) && InfoMoved(g, h', from, to, n + 1, i)
  {
    IndexOfUnique(from, n);
    IndexOfUnique(to, n);
    assert from[n] in from && to[n] in to;
    assert IndexOf(to, i) == n ==> i == to[n];
    assert IndexOf(from, i) == n ==> i == from[n];
  }

  lemma {:induction false} InputsMovedNext(g: Net, h: Net, h': Net, from: seq<InSlot>, to: seq<InSlot>, n: nat)
    requires FreshInputs(g, from, to) && n < |from| && from[n] in g.source
    requires InputsMoved(g, h, from, to, n) && from[n] in h.source && Swapped(h, h', from[n], to[n])
    ensures InputsMoved(g, h', from, to, n + 1)
  {
    assert InputMoved(g, h, from, to, n, from[n]) && InfoMoved(g, h, from, to, n, from[n]);
    assert InputMoved(g, h, from, to, n, to[n]) && InfoMoved(g, h, from, to, n, to[n]);
    IndexOfUnique(from, n);
    assert from[n] in from;
    var n' := n + 1;
    forall i
      ensures InputMoved(g, h', from, to, n', i) && InfoMoved(g, h', from, to, n', i)
    {
      assert InputMoved(g, h, from, to, n, i) && InfoMoved(g, h, from, to, n, i);
      InputMovedNext(g, h, h', from, to, n, i);
    }
    forall p
      ensures Feeds(g, from, n + 1, p) || h'.Sinks(p) == g.Sinks(p)
    {
      assert Feeds(g, from, n, p) ==> Feeds(g, from, n + 1, p);
    }
  }

  /** An input slot without a connection is passed over. */
  lemma {:induction false} InputsMovedSkip(g: Net, h: Net, from: seq<InSlot>, to: seq<InSlot>, n: nat)
    requires FreshInputs(g, from, to) && n < |from|
    requires InputsMoved(g, h, from, to, n)
    ensures from[n] in h.source <==> from[n] in g.source
    ensures from[n] in g.source ==> h.source[from[n]] == g.source[from[n]]
    ensures from[n] !in g.source ==> InputsMoved(g, h, from, to, n + 1)
    ensures to[n] in h.source <==> to[n] in g.source
    ensures from[n] in h.overridden <==> from[n] in g.overridden
    ensures from[n] in g.overridden ==> h.overridden[from[n]] == g.overridden[from[n]]
  {
    assert InputMoved(g, h, from, to, n, from[n]) && InfoMoved(g, h, from, to, n, from[n]);
    assert InputMoved(g, h, from, to, n, to[n]);
    IndexOfUnique(from, n);
    IndexOfUnique(to, n);
    assert from[n] in from && to[n] in to;
    var n' := n + 1;
    if from[n] !in g.source {
      forall i
        ensures InputMoved(g, h, from, to, n', i) && InfoMoved(g, h, from, to, n', i)
      {
        assert InputMoved(g, h, from, to, n, i) && InfoMoved(g, h, from, to, n, i);
        assert IndexOf(to, i) == n ==> i == to[n];
        assert IndexOf(from, i) == n ==> i == from[n];
      }
    }
  }

  /** Disconnecting i from its source and connecting the free slot j to it instead. */
  lemma {:induction false} SwapOne(h: Net, i: InSlot, j: InSlot, m: Net, k: Net)
    requires h.Linked() && i in h.source && j !in h.source && i != j && h.IsIn(j)
    requires m == h.Unlink(h.source[i], i) && k == m.Link(h.source[i], j)
    ensures m.Linked() && k.Linked() && m.IsIn(j) && m.IsOut(h.source[i]) && j !in m.source
    ensures SwappedEdge(h, k, i, j)
  {
    assert h.SourceOK(i);
    UnlinkKeeps(h, h.source[i], i);
    LinkKeeps(m, h.source[i], j);
    SwapOneEdge(h, i, j, m, k);
  }

  lemma {:induction false} SwapOneEdge(h: Net, i: InSlot, j: InSlot, m: Net, k: Net)
    requires i in h.source && i != j && m == h.Unlink(h.source[i], i) && k == m.Link(h.source[i], j)
    requires SameEdgesBut(h, m, i) && SameEdgesBut(m, k, j) && k.StrategyOf(j) == Undefined
    ensures SwappedEdge(h, k, i, j)
  {
  }

  /** An output slot whose edges have no strategies still has none once the inputs have moved. */
  lemma {:induction false} InputsMovedUnassigned(g: Net, h: Net, from: seq<InSlot>, to: seq<InSlot>, n: nat, o: OutSlot)
    requires |from| == |to| && InputsMoved(g, h, from, to, n) && g.Linked() && h.Linked() && Unassigned(g, o)
    ensures Unassigned(h, o)
  {
    forall i | i in h.source && h.source[i] == o
      ensures h.StrategyOf(i) == Undefined
    {
      assert InputMoved(g, h, from, to, n, i);
      if i in g.source && g.source[i] == o {
        UnassignedReader(g, o, i);
      }
    }
    UnassignedByReaders(h, o);
  }

  /** The new output slots are not among the old ones. */
  ghost predicate FreshOutputs(g: Net, from: seq<OutSlot>, to: seq<OutSlot>) {
    && |from| == |to| && NoDup(from) && NoDup(to)
    && (forall o :: o in from ==> o !in to)
    && (forall o :: o in to ==> g.IsOut(o))
  }

  /** Where the readers of output slot o read once the connections of the first n slots have moved. */
  ghost function Target(from: seq<OutSlot>, to: seq<OutSlot>, n: nat, o: OutSlot): OutSlot
    requires |from| == |to|
  {
    if IndexOf(from, o) < n && o in from then to[IndexOf(from, o)] else o
  }

  ghost predicate ReaderMoved(g: Net, h: Net, from: seq<OutSlot>, to: seq<OutSlot>, n: nat, i: InSlot)
    requires |from| == |to|
  {
    && (i in h.source <==> i in g.source)
    && (i in g.source ==> h.source[i] == Target(from, to, n, g.source[i]))
    && (i in g.source ==> h.StrategyOf(i) == if h.source[i] == g.source[i] then g.StrategyOf(i) else Undefined)
  }

  /** The connection list of p once those of the first n slots have moved. */
  ghost predicate ListMoved(g: Net, h: Net, from: seq<OutSlot>, to: seq<OutSlot>, n: nat, p: OutSlot)
    requires |from| == |to|
  {
    h.Sinks(p) ==
      if IndexOf(from, p) < n && p in from then []
      else if IndexOf(to, p) < n && p in to then g.Sinks(p) + g.Sinks(from[IndexOf(to, p)])
      else g.Sinks(p)
  }

  ghost predicate OutputsMoved(g: Net, h: Net, from: seq<OutSlot>, to: seq<OutSlot>, n: nat)
    requires |from| == |to|
  {
    && SameLayers(g, h)
    && (forall i :: ReaderMoved(g, h, from, to, n, i))
    && (forall p :: ListMoved(g, h, from, to, n, p))
  }

  lemma {:induction false} OutputsMovedStart(g: Net, from: seq<OutSlot>, to: seq<OutSlot>)
    requires |from| == |to|
    ensures OutputsMoved(g, g, from, to, 0)
  {
  }

  lemma {:induction false} OutputsMovedNext(g: Net, h: Net, h': Net, from: seq<OutSlot>, to: seq<OutSlot>, n: nat)
    requires FreshOutputs(g, from, to) && n < |from| && OutputsMoved(g, h, from, to, n)
    requires Moved(h, h', from[n], to[n])
    ensures OutputsMoved(g, h', from, to, n + 1)
  {
    IndexOfUnique(from, n);
    IndexOfUnique(to, n);
    assert from[n] in from && to[n] in to;
    var n' := n + 1;
    forall i
      ensures ReaderMoved(g, h', from, to, n', i)
    {
      assert ReaderMoved(g, h, from, to, n, i);
      if i in g.source {
        TargetNext(from, to, n, g.source[i]);
      }
    }
    forall p
      ensures ListMoved(g, h', from, to, n', p)
    {
      assert ListMoved(g, h, from, to, n, p) && ListMoved(g, h, from, to, n, from[n]) && ListMoved(g, h, from, to, n, to[n]);
      assert IndexOf(from, p) == n ==> p == from[n];
      assert IndexOf(to, p) == n ==> p == to[n];
    }
  }

  lemma {:induction false} TargetNext(from: seq<OutSlot>, to: seq<OutSlot>, n: nat, o: OutSlot)
    requires |from| == |to| && NoDup(from) && n < |from|
    requires forall p :: p in from ==> p !in to
    ensures Target(from, to, n + 1, o) == if Target(from, to, n, o) == from[n] then to[n] else Target(from, to, n, o)
    ensures Target(from, to, n, o) == from[n] ==> o == from[n]
  {
    IndexOfUnique(from, n);
    assert from[n] in from;
    if IndexOf(from, o) < n && o in from {
      assert to[IndexOf(from, o)] in to;
    }
  }

  /** The edges of the next slot still have no strategies. */
  lemma {:induction false} OutputsMovedUnassigned(g: Net, h: Net, from: seq<OutSlot>, to: seq<OutSlot>, n: nat)
    requires FreshOutputs(g, from, to) && n < |from| && OutputsMoved(g, h, from, to, n)
    requires g.Linked() && h.Linked() && Unassigned(g, from[n])
    ensures Unassigned(h, from[n])
  {
    IndexOfUnique(from, n);
    assert from[n] in from;
    forall i | i in h.source && h.source[i] == from[n]
      ensures h.StrategyOf(i) == Undefined
    {
      assert ReaderMoved(g, h, from, to, n, i);
      TargetNext(from, to, n, g.source[i]);
      UnassignedReader(g, from[n], i);
    }
    UnassignedByReaders(h, from[n]);
  }

  ghost predicate LayersGone(g: Net, h: Net, gone: set<LayerId>) {
    && (forall l :: l in h.info <==> l in g.info && l !in gone)
    && (forall l :: l in h.info ==> h.info[l] == g.info[l])
    && (forall i :: i in h.overridden <==> i in g.overridden && i.layer !in gone)
    && (forall i :: i in h.overridden ==> h.overridden[i] == g.overridden[i])
  }

  ghost predicate EdgesGone(g: Net, h: Net, gone: set<LayerId>) {
    && (forall i :: i in h.source <==> i in g.source && i.layer !in gone && g.source[i].layer !in gone)
    && (forall i :: i in h.source ==> h.source[i] == g.source[i] && h.StrategyOf(i) == g.StrategyOf(i))
  }

  /** h is g without the layers in gone and the edges that touched them; what is left keeps its order. */
  ghost predicate ErasedAll(g: Net, h: Net, gone: set<LayerId>) {
    h.layers == Without(g.layers, gone) && LayersGone(g, h, gone) && EdgesGone(g, h, gone) && forall p :: Subsequence(h.Sinks(p), g.Sinks(p))
  }

  lemma {:induction false} ErasedAllStart(g: Net)
    ensures ErasedAll(g, g, {})
  {
    WithoutNothing(g.layers);
    forall p
      ensures Subsequence(g.Sinks(p), g.Sinks(p))
    {
      SubsequenceRefl(g.Sinks(p));
    }
  }

  lemma {:induction false} LayersGoneNext(g: Net, h: Net, h': Net, gone: set<LayerId>, l: LayerId)
    requires LayersGone(g, h, gone) && h'.info == h.info - {l} && h'.overridden == ForgetLayer(h.overridden, l)
    ensures LayersGone(g, h', gone + {l})
  {
  }

  lemma {:induction false} EdgesGoneNext(g: Net, h: Net, h': Net, gone: set<LayerId>, l: LayerId)
    requires EdgesGone(g, h, gone)
    requires forall i :: i in h'.source ==> i in h.source && h'.source[i] == h.source[i] && h'.StrategyOf(i) == h.StrategyOf(i)
    requires forall i :: i in h.source ==> (i in h'.source <==> i.layer != l && h.source[i].layer != l)
    ensures EdgesGone(g, h', gone + {l})
  {
  }

  lemma {:induction false} ErasedAllNext(g: Net, h: Net, h': Net, gone: set<LayerId>, l: LayerId)
    requires NoDup(g.layers) && ErasedAll(g, h, gone) && Erased(h, h', l)
    ensures ErasedAll(g, h', gone + {l})
  {
    WithoutOneMore(g.layers, gone, l);
    LayersGoneNext(g, h, h', gone, l);
    EdgesGoneNext(g, h, h', gone, l);
    forall p
      ensures Subsequence(h'.Sinks(p), g.Sinks(p))
    {
      SubsequenceTransitive(h'.Sinks(p), h.Sinks(p), g.Sinks(p));
    }
  }

  /** Input slot i of the substituted graph is to be fed by what fed slot OldSlot(i) before. */
  ghost predicate HasOrigin(g: Net, view: View, sub: View, i: InSlot)
    requires |view.inputs| == |sub.inputs|
  {
    (i in sub.inputs && view.inputs[IndexOf(sub.inputs, i)] in g.source) || (i in g.source && i !in view.inputs)
  }

  ghost function Origin(g: Net, view: View, sub: View, i: InSlot): OutSlot
    requires |view.inputs| == |sub.inputs| && HasOrigin(g, view, sub, i)
  {
    if i in sub.inputs && view.inputs[IndexOf(sub.inputs, i)] in g.source
    then g.source[view.inputs[IndexOf(sub.inputs, i)]]
    else g.source[i]
  }

  ghost predicate Compatible(view: View, sub: View) {
    |view.inputs| == |sub.inputs| && |view.outputs| == |sub.outputs|
  }

  /** The new input slots read what the old ones read, readers of the old output slots read the new ones,
      every other slot reads what it read, and whatever touched an old layer is gone. */
  ghost predicate Rewired(g: Net, h: Net, view: View, sub: View, i: InSlot)
    requires Compatible(view, sub)
  {
    if HasOrigin(g, view, sub, i) && i.layer !in view.layers
       && Target(view.outputs, sub.outputs, |sub.outputs|, Origin(g, view, sub, i)).layer !in view.layers
    then
      && i in h.source && h.source[i] == Target(view.outputs, sub.outputs, |sub.outputs|, Origin(g, view, sub, i))
      && h.StrategyOf(i) == if i in g.source && h.source[i] == g.source[i] then g.StrategyOf(i) else Undefined
    else
      i !in h.source
  }

  ghost predicate InfoKept(g: Net, h: Net, view: View, sub: View, i: InSlot)
    requires Compatible(view, sub)
  {
    if i.layer in view.layers then i !in h.overridden else InfoMoved(g, h, view.inputs, sub.inputs, |sub.inputs|, i)
  }

  /** The readers of the k-th new output slot: its own first, then those of the old slot, in order. */
  ghost predicate ReadersInOrder(g: Net, h: Net, view: View, sub: View, k: nat)
    requires Compatible(view, sub) && k < |sub.outputs|
  {
    || Feeds(g, view.inputs, |view.inputs|, view.outputs[k]) || Feeds(g, view.inputs, |view.inputs|, sub.outputs[k])
    || Subsequence(h.Sinks(sub.outputs[k]), g.Sinks(sub.outputs[k]) + g.Sinks(view.outputs[k]))
  }

  /** h is g after the subgraph seen by view has been replaced by the one seen by sub. */
  ghost predicate Substituted(g: Net, h: Net, view: View, sub: View)
    requires Compatible(view, sub)
  {
    && (forall l :: l in h.info <==> l in g.info && l !in view.layers)
    && (forall l :: l in h.info ==> h.info[l] == g.info[l])
    && (forall i :: Rewired(g, h, view, sub, i))
    && (forall i :: InfoKept(g, h, view, sub, i))
    && (forall k :: 0 <= k < |sub.outputs| ==> ReadersInOrder(g, h, view, sub, k))
  }

  /** What is asked of a substitute: as many input and output slots, other ones than the old. */
  ghost predicate Fits(g: Net, view: View, sub: View) {
    && FreshInputs(g, view.inputs, sub.inputs) && FreshOutputs(g, view.outputs, sub.outputs)
    && NoDup(view.layers) && (forall l :: l in view.layers ==> l in g.info)
  }

  lemma {:induction false} RewiredInSteps(g: Net, m: Net, p: Net, h: Net, view: View, sub: View, i: InSlot)
    requires Fits(g, view, sub) && Free(g, view.inputs, sub.inputs, |sub.inputs|)
    requires InputMoved(g, m, view.inputs, sub.inputs, |sub.inputs|, i)
    requires ReaderMoved(m, p, view.outputs, sub.outputs, |sub.outputs|, i)
    requires i in h.source <==> i in p.source && i.layer !in view.layers && p.source[i].layer !in view.layers
    requires i in h.source ==> h.source[i] == p.source[i] && h.StrategyOf(i) == p.StrategyOf(i)
    ensures Rewired(g, h, view, sub, i)
  {
    assert i in view.inputs <==> IndexOf(view.inputs, i) < |view.inputs|;
    assert i in sub.inputs <==> IndexOf(sub.inputs, i) < |sub.inputs|;
  }

  lemma {:induction false} SubstitutedInSteps(g: Net, m: Net, p: Net, h: Net, view: View, sub: View)
    requires Fits(g, view, sub) && Free(g, view.inputs, sub.inputs, |sub.inputs|)
    requires InputsMoved(g, m, view.inputs, sub.inputs, |sub.inputs|)
    requires OutputsMoved(m, p, view.outputs, sub.outputs, |sub.outputs|)
    requires ErasedAll(p, h, Elems(view.layers))
    ensures Substituted(g, h, view, sub) && h.layers == Without(g.layers, Elems(view.layers))
  {
    forall i
      ensures Rewired(g, h, view, sub, i)
    {
      assert InputMoved(g, m, view.inputs, sub.inputs, |sub.inputs|, i);
      assert ReaderMoved(m, p, view.outputs, sub.outputs, |sub.outputs|, i);
      RewiredInSteps(g, m, p, h, view, sub, i);
    }
    forall i
      ensures InfoKept(g, h, view, sub, i)
    {
      assert InfoMoved(g, m, view.inputs, sub.inputs, |sub.inputs|, i);
    }
    forall k | 0 <= k < |sub.outputs|
      ensures ReadersInOrder(g, h, view, sub, k)
    {
      ListsMoved(g, m, p, view, sub, k);
      assert Subsequence(h.Sinks(sub.outputs[k]), p.Sinks(sub.outputs[k]));
    }
  }

  lemma {:induction false} ListsMoved(g: Net, m: Net, p: Net, view: View, sub: View, k: nat)
    requires Fits(g, view, sub) && k < |sub.outputs|
    requires InputsMoved(g, m, view.inputs, sub.inputs, |sub.inputs|)
    requires OutputsMoved(m, p, view.outputs, sub.outputs, |sub.outputs|)
    ensures || Feeds(g, view.inputs, |view.inputs|, view.outputs[k]) || Feeds(g, view.inputs, |view.inputs|, sub.outputs[k])
            || p.Sinks(sub.outputs[k]) == g.Sinks(sub.outputs[k]) + g.Sinks(view.outputs[k])
  {
    var o, d := view.outputs[k], sub.outputs[k];
    IndexOfUnique(sub.outputs, k);
    assert d in sub.outputs && o in view.outputs;
    assert ListMoved(m, p, view.outputs, sub.outputs, |sub.outputs|, d);
    assert Feeds(g, view.inputs, |sub.inputs|, o) || m.Sinks(o) == g.Sinks(o);
    assert Feeds(g, view.inputs, |sub.inputs|, d) || m.Sinks(d) == g.Sinks(d);
  }

  /** With the donor taken in, the substitute fits. */
  ghost predicate Suits(g: Net, donor: Net, view: View, sub: View) {
    forall a :: Adopted(g, donor, a) ==> Fits(a, view, sub) && forall o :: o in view.outputs ==> Unassigned(a, o)
  }

  /** What input slot i of a region receives: boundary values x at its inputs, else what v says. */
  ghost function BoundaryArg(g: Net, v: Assignment, ins: seq<InSlot>, x: seq<Value>, i: InSlot): Value
    requires |x| == |ins|
  {
    if i in ins then x[IndexOf(ins, i)] else ArgVal(g, v, i)
  }

  ghost function BoundaryArgs(g: Net, v: Assignment, ins: seq<InSlot>, x: seq<Value>, l: LayerId): (a: seq<Value>)
    requires |x| == |ins| && l in g.info
    ensures |a| == g.info[l].numIn
  {
    seq(g.info[l].numIn, k requires 0 <= k => BoundaryArg(g, v, ins, x, InSlot(l, k)))
  }

  /** v satisfies the equations of the region's layers when its inputs receive x. */
  ghost predicate RegionSolves(g: Net, f: Sem, region: View, x: seq<Value>, v: Assignment)
    requires |x| == |region.inputs|
  {
    forall o :: g.IsOut(o) && o.layer in region.layers ==>
      o in v && v[o] == LayerOutput(g, f, o.layer, BoundaryArgs(g, v, region.inputs, x, o.layer), o.index)
  }

  function ValueAt(v: Assignment, o: OutSlot): Value {
    if o in v then v[o] else []
  }

  /** Fed alike, the two regions put out the same. */
  ghost predicate SameFunction(g: Net, f: Sem, view: View, sub: View)
    requires Compatible(view, sub)
  {
    forall x: seq<Value>, v, w :: |x| == |view.inputs| && RegionSolves(g, f, view, x, v) && RegionSolves(g, f, sub, x, w) ==>
      forall k :: 0 <= k < |view.outputs| ==> ValueAt(v, view.outputs[k]) == ValueAt(w, sub.outputs[k])
  }

  /** The view of a single layer with all its slots. */
  ghost predicate IsSingle(g: Net, view: View, l: LayerId) {
    && l in g.info && view.layers == [l]
    && |view.inputs| == g.info[l].numIn && (forall k :: 0 <= k < |view.inputs| ==> view.inputs[k] == InSlot(l, k))
    && |view.outputs| == g.info[l].numOut && (forall k :: 0 <= k < |view.outputs| ==> view.outputs[k] == OutSlot(l, k))
  }

  lemma {:induction false} SingleReceives(g: Net, view: View, l: LayerId, x: seq<Value>, v: Assignment)
    requires IsSingle(g, view, l) && |x| == |view.inputs|
    ensures BoundaryArgs(g, v, view.inputs, x, l) == x
  {
    forall k | 0 <= k < |x|
      ensures BoundaryArgs(g, v, view.inputs, x, l)[k] == x[k]
    {
      assert view.inputs[k] == InSlot(l, k) && InSlot(l, k) in view.inputs;
      assert view.inputs[IndexOf(view.inputs, InSlot(l, k))] == InSlot(l, k);
    }
  }

  /** Two layers that compute the same are regions of the same function. */
  lemma {:induction false} SingleLayersAlike(g: Net, f: Sem, view: View, sub: View, a: LayerId, b: LayerId)
    requires IsSingle(g, view, a) && IsSingle(g, sub, b) && Compatible(view, sub)
    requires forall args, k :: |args| == g.info[a].numIn ==> LayerOutput(g, f, a, args, k) == LayerOutput(g, f, b, args, k)
    ensures SameFunction(g, f, view, sub)
  {
    forall x: seq<Value>, v, w, k | |x| == |view.inputs| && RegionSolves(g, f, view, x, v) && RegionSolves(g, f, sub, x, w) && 0 <= k < |view.outputs|
      ensures ValueAt(v, view.outputs[k]) == ValueAt(w, sub.outputs[k])
    {
      SingleReceives(g, view, a, x, v);
      SingleReceives(g, sub, b, x, w);
      assert g.IsOut(OutSlot(a, k)) && g.IsOut(OutSlot(b, k));
      assert a in view.layers && b in sub.layers;
    }
  }

  /** The view shows the whole boundary: edges leave through its outputs only, its inputs are fed from outside. */
  ghost predicate Bordered(g: Net, view: View) {
    && (forall o :: o in view.outputs ==> o.layer in view.layers && g.IsOut(o))
    && (forall i :: i in view.inputs ==> i.layer in view.layers)
    && (forall i :: i in g.source && i.layer !in view.layers && g.source[i].layer in view.layers ==> g.source[i] in view.outputs)
    && (forall i :: i in view.inputs && i in g.source ==> g.source[i].layer !in view.layers)
  }

  /** The substitute has no edge to the rest of the graph yet, and no layer in common with what it replaces. */
  ghost predicate Loose(g: Net, view: View, sub: View) {
    && (forall l :: l in sub.layers ==> l !in view.layers)
    && (forall o :: o in sub.outputs ==> o.layer in sub.layers)
    && (forall i :: i in sub.inputs ==> i.layer in sub.layers && i !in g.source)
    && (forall i :: i in g.source ==> (i.layer in sub.layers <==> g.source[i].layer in sub.layers))
  }

  ghost predicate Replaceable(g: Net, h: Net, view: View, sub: View) {
    && g.Linked() && h.Linked() && Fits(g, view, sub) && Bordered(g, view) && Loose(g, view, sub)
    && Substituted(g, h, view, sub)
  }

  /** What a layer outside both regions reads. */
  lemma {:induction false} OuterSource(g: Net, h: Net, view: View, sub: View, i: InSlot)
    requires Replaceable(g, h, view, sub) && i.layer !in view.layers && i.layer !in sub.layers
    ensures i in h.source <==> i in g.source
    ensures i in g.source ==> h.source[i] == Target(view.outputs, sub.outputs, |sub.outputs|, g.source[i])
    ensures i in g.source && g.source[i] !in view.outputs ==> g.source[i].layer !in view.layers && g.source[i].layer !in sub.layers
  {
    assert Rewired(g, h, view, sub, i);
    assert i in g.source && g.source[i] in view.outputs ==> sub.outputs[IndexOf(view.outputs, g.source[i])] in sub.outputs;
  }

  /** What a layer of the substitute reads. */
  lemma {:induction false} InnerSource(g: Net, h: Net, view: View, sub: View, i: InSlot)
    requires Replaceable(g, h, view, sub) && i.layer in sub.layers
    ensures i !in sub.inputs ==> (i in h.source <==> i in g.source) && (i in g.source ==> h.source[i] == g.source[i])
    ensures i in sub.inputs ==> var j := view.inputs[IndexOf(sub.inputs, i)];
      && (i in h.source <==> j in g.source)
      && (j in g.source ==> h.source[i] == g.source[j] && g.source[j].layer !in view.layers && g.source[j].layer !in sub.layers)
  {
    assert Rewired(g, h, view, sub, i);
    if i in sub.inputs {
      assert view.inputs[IndexOf(sub.inputs, i)] in view.inputs;
    } else if i in g.source {
      assert g.source[i] !in view.outputs;
    }
  }

  /** The values at the boundary in the substituted graph. */
  ghost function AtBoundary(h: Net, v: Assignment, ins: seq<InSlot>): (x: seq<Value>)
    ensures |x| == |ins|
    ensures forall k {:trigger x[k]} :: 0 <= k < |ins| ==> x[k] == ArgVal(h, v, ins[k])
  {
    seq(|ins|, k requires 0 <= k < |ins| => ArgVal(h, v, ins[k]))
  }

  lemma {:induction false} SubstituteSolved(g: Net, h: Net, f: Sem, view: View, sub: View, v: Assignment)
    requires Replaceable(g, h, view, sub) && Solves(h, f, v)
    ensures RegionSolves(g, f, sub, AtBoundary(h, v, sub.inputs), v)
  {
    var x := AtBoundary(h, v, sub.inputs);
    forall o | g.IsOut(o) && o.layer in sub.layers
      ensures o in v && v[o] == LayerOutput(g, f, o.layer, BoundaryArgs(g, v, sub.inputs, x, o.layer), o.index)
    {
      assert SolvesAt(h, f, v, o);
      forall k: nat | k < g.info[o.layer].numIn
        ensures ArgVal(h, v, InSlot(o.layer, k)) == BoundaryArg(g, v, sub.inputs, x, InSlot(o.layer, k))
      {
        InnerSource(g, h, view, sub, InSlot(o.layer, k));
      }
      assert Args(h, v, o.layer) == BoundaryArgs(g, v, sub.inputs, x, o.layer);
    }
  }

  /** w gives the old graph the values of v outside both regions. */
  ghost predicate Agree(g: Net, view: View, sub: View, v: Assignment, w: Assignment) {
    forall o :: g.IsOut(o) && o.layer !in view.layers && o.layer !in sub.layers ==> o in v && o in w && w[o] == v[o]
  }

  lemma {:induction false} OriginalSolved(g: Net, h: Net, f: Sem, view: View, sub: View, v: Assignment, w: Assignment)
    requires Replaceable(g, h, view, sub) && Agree(g, view, sub, v, w)
    requires (forall o :: o in w ==> g.IsOut(o)) && SolvesOn(g, f, w, Elems(view.layers))
    ensures RegionSolves(g, f, view, AtBoundary(h, v, sub.inputs), w)
  {
    var x := AtBoundary(h, v, sub.inputs);
    forall o | g.IsOut(o) && o.layer in view.layers
      ensures o in w && w[o] == LayerOutput(g, f, o.layer, BoundaryArgs(g, w, view.inputs, x, o.layer), o.index)
    {
      assert SolvesAt(g, f, w, o);
      forall k: nat | k < g.info[o.layer].numIn
        ensures ArgVal(g, w, InSlot(o.layer, k)) == BoundaryArg(g, w, view.inputs, x, InSlot(o.layer, k))
      {
        BoundaryMatches(g, h, view, sub, v, w, InSlot(o.layer, k));
      }
      assert Args(g, w, o.layer) == BoundaryArgs(g, w, view.inputs, x, o.layer);
    }
  }

  lemma {:induction false} BoundaryMatches(g: Net, h: Net, view: View, sub: View, v: Assignment, w: Assignment, i: InSlot)
    requires Replaceable(g, h, view, sub) && Agree(g, view, sub, v, w)
    ensures i in view.inputs ==> ArgVal(g, w, i) == ArgVal(h, v, sub.inputs[IndexOf(view.inputs, i)])
  {
    if i in view.inputs {
      var k := IndexOf(view.inputs, i);
      assert sub.inputs[k] in sub.inputs;
      IndexOfUnique(sub.inputs, k);
      InnerSource(g, h, view, sub, sub.inputs[k]);
      assert g.SourceOK(i);
    }
  }

  /** A layer outside both regions receives the same. */
  lemma {:induction false} OuterArrival(g: Net, h: Net, f: Sem, view: View, sub: View, v: Assignment, w: Assignment, i: InSlot)
    requires Replaceable(g, h, view, sub) && Agree(g, view, sub, v, w) && i.layer !in view.layers && i.layer !in sub.layers
    requires forall k :: 0 <= k < |view.outputs| ==> ValueAt(w, view.outputs[k]) == ValueAt(v, sub.outputs[k])
    ensures ArgVal(h, v, i) == ArgVal(g, w, i)
  {
    OuterSource(g, h, view, sub, i);
    assert g.SourceOK(i);
    if i in g.source && g.source[i] in view.outputs {
      var k := IndexOf(view.outputs, g.source[i]);
      assert ValueAt(w, view.outputs[k]) == ValueAt(v, sub.outputs[k]);
    }
  }

  /** The values of v outside the two regions. */
  ghost function Outside(g: Net, v: Assignment, s: set<LayerId>): (e: Assignment)
    ensures forall o :: o in e <==> o in v && o.layer !in s
    ensures forall o :: o in e ==> e[o] == v[o]
  {
    map o | o in v && o.layer !in s :: v[o]
  }

  /** A substitute that computes the same function leaves every value outside the subgraph as it was,
      and with it what every remaining layer, Outputs included, receives. */
  lemma {:induction false} SubstitutionKeepsMeaning(g: Net, h: Net, f: Sem, view: View, sub: View)
    requires Replaceable(g, h, view, sub) && Acyclic(g) && Acyclic(h) && SameFunction(g, f, view, sub)
    ensures forall o :: g.IsOut(o) && o.layer !in view.layers && o.layer !in sub.layers ==> h.IsOut(o) && Meaning(h, f)[o] == Meaning(g, f)[o]
    ensures forall l :: l in g.info && l !in view.layers && l !in sub.layers ==> Reaching(h, f, l) == Reaching(g, f, l)
  {
    var v := Meaning(h, f);
    var w := OldSolution(g, h, f, view, sub, v);
    MeaningUnique(g, f, w);
    forall l | l in g.info && l !in view.layers && l !in sub.layers
      ensures Reaching(h, f, l) == Reaching(g, f, l)
    {
      OuterArrival(g, h, f, view, sub, v, w, InSlot(l, 0));
    }
  }

  /** A solution of the substituted graph gives one of the old graph. */
  lemma {:induction false} OldSolution(g: Net, h: Net, f: Sem, view: View, sub: View, v: Assignment) returns (w: Assignment)
    requires Replaceable(g, h, view, sub) && Acyclic(g) && Solves(h, f, v) && SameFunction(g, f, view, sub)
    ensures Solves(g, f, w) && Agree(g, view, sub, v, w)
    ensures forall k :: 0 <= k < |view.outputs| ==> ValueAt(w, view.outputs[k]) == ValueAt(v, sub.outputs[k])
  {
    var both := Elems(view.layers) + Elems(sub.layers);
    w := SolutionExistsOn(g, f, both, Outside(g, v, both));
    assert Agree(g, view, sub, v, w);
    SubstituteSolved(g, h, f, view, sub, v);
    assert SolvesOn(g, f, w, Elems(view.layers));
    OriginalSolved(g, h, f, view, sub, v, w);
    SolvesOutside(g, h, f, view, sub, v, w);
  }

  lemma {:induction false} SolvesOutside(g: Net, h: Net, f: Sem, view: View, sub: View, v: Assignment, w: Assignment)
    requires Replaceable(g, h, view, sub) && Agree(g, view, sub, v, w) && Solves(h, f, v)
    requires SolvesOn(g, f, w, Elems(view.layers) + Elems(sub.layers)) && forall o :: o in w <==> g.IsOut(o)
    requires forall k :: 0 <= k < |view.outputs| ==> ValueAt(w, view.outputs[k]) == ValueAt(v, sub.outputs[k])
    ensures Solves(g, f, w)
  {
    forall o | g.IsOut(o)
      ensures SolvesAt(g, f, w, o)
    {
      if o.layer !in view.layers && o.layer !in sub.layers {
        assert SolvesAt(h, f, v, o);
        forall k: nat | k < g.info[o.layer].numIn
          ensures ArgVal(h, v, InSlot(o.layer, k)) == ArgVal(g, w, InSlot(o.layer, k))
        {
          OuterArrival(g, h, f, view, sub, v, w, InSlot(o.layer, k));
        }
        SameArgs(h, v, g, w, o.layer);
      }
    }
  }

  /** Layers that belong to no list of this graph yet, with the edges among them. */
  ghost predicate Donates(g: Net, donor: Net) {
    && donor.Linked()
    && (forall l :: l in donor.info ==> l !in g.info && donor.info[l].WellShaped() && donor.info[l].Rank() == 1)
    && (forall i :: i in donor.overridden ==> donor.IsIn(i))
  }

  /** h is g with the listed layers of the donor, without their edges. */
  ghost predicate Joined(g: Net, donor: Net, h: Net, s: seq<LayerId>) {
    && h.source == g.source && h.sinks == g.sinks && h.strategies == g.strategies && h.overridden == g.overridden
    && (forall l :: l in h.info <==> l in g.info || (l in donor.info && l in s))
    && (forall l :: l in h.info ==> h.info[l] == if l in g.info then g.info[l] else donor.info[l])
  }

  /** h is g together with the donor. */
  ghost predicate Adopted(g: Net, donor: Net, h: Net) {
    && h.info == g.info + donor.info && h.source == g.source + donor.source
    && h.sinks == g.sinks + donor.sinks && h.strategies == g.strategies + donor.strategies
    && h.overridden == g.overridden + donor.overridden
  }

  lemma {:induction false} AdoptedSinks(g: Net, donor: Net, h: Net, o: OutSlot)
    requires g.Linked() && Donates(g, donor) && Adopted(g, donor, h) && DonorSlotsOnly(donor)
    ensures h.Sinks(o) == if o.layer in donor.info then donor.Sinks(o) else g.Sinks(o)
    ensures h.Strategies(o) == if o.layer in donor.info then donor.Strategies(o) else g.Strategies(o)
  {
    assert g.SinksOK(o);
    if o.layer in donor.info && g.Sinks(o) != [] {
      SinksOwned(g, o);
    }
  }

  /** The donor's maps mention its own slots only. */
  ghost predicate DonorSlotsOnly(donor: Net) {
    (forall o :: o in donor.sinks ==> o.layer in donor.info) && (forall o :: o in donor.strategies ==> o.layer in donor.info)
  }

  lemma {:induction false} AdoptedIsLinked(g: Net, donor: Net, h: Net)
    requires g.Linked() && Donates(g, donor) && Adopted(g, donor, h) && DonorSlotsOnly(donor)
    ensures h.Linked()
    ensures forall i :: i in g.source ==> h.StrategyOf(i) == g.StrategyOf(i)
    ensures forall i :: i in donor.source ==> h.StrategyOf(i) == donor.StrategyOf(i)
  {
    forall o
      ensures h.SinksOK(o)
    {
      AdoptedSinks(g, donor, h, o);
      AdoptedSlot(g, donor, h, o);
    }
    forall i
      ensures h.SourceOK(i)
      ensures i in g.source ==> h.StrategyOf(i) == g.StrategyOf(i)
      ensures i in donor.source ==> h.StrategyOf(i) == donor.StrategyOf(i)
    {
      assert g.SourceOK(i) && donor.SourceOK(i);
      if i in h.source {
        AdoptedSinks(g, donor, h, h.source[i]);
      }
    }
  }

  lemma {:induction false} AdoptedSlot(g: Net, donor: Net, h: Net, o: OutSlot)
    requires g.Linked() && Donates(g, donor) && Adopted(g, donor, h)
    requires h.Sinks(o) == if o.layer in donor.info then donor.Sinks(o) else g.Sinks(o)
    requires h.Strategies(o) == if o.layer in donor.info then donor.Strategies(o) else g.Strategies(o)
    ensures h.SinksOK(o)
  {
    assert g.SinksOK(o) && donor.SinksOK(o);
    forall i | i in h.Sinks(o)
      ensures i in h.source && h.source[i] == o
    {
      assert g.SourceOK(i) && donor.SourceOK(i);
    }
  }

  /** Taking the donor in changes nothing for the layers that were there. */
  lemma {:induction false} AdoptionKeepsMeaning(g: Net, donor: Net, h: Net)
    requires g.Linked() && Donates(g, donor) && Adopted(g, donor, h)
    ensures KeepsMeaning(g, h)
  {
    forall f: Sem, w | Solves(h, f, w)
      ensures SameArrivals(g, h, w)
    {
      forall i | g.IsIn(i)
        ensures ArgVal(h, w, i) == ArgVal(g, w, i)
      {
        assert donor.SourceOK(i);
      }
    }
  }

  /** With the donor in, the graph is acyclic if it was before and the substituted graph is. */
  lemma {:induction false} AdoptedIsAcyclic(g: Net, donor: Net, a: Net, h: Net, view: View, sub: View)
    requires g.Linked() && Donates(g, donor) && Adopted(g, donor, a) && Acyclic(g)
    requires Replaceable(a, h, view, sub) && Acyclic(h)
    requires forall l :: l in donor.info ==> l in sub.layers
    ensures Acyclic(a)
  {
    forall i | i in donor.source
      ensures i in h.source && h.source[i] == donor.source[i]
    {
      assert donor.SourceOK(i) && i !in sub.inputs;
      InnerSource(a, h, view, sub, i);
    }
    RanksMerge(g, donor, a, h);
  }

  lemma {:induction false} RanksMerge(g: Net, donor: Net, a: Net, h: Net)
    requires g.Linked() && donor.Linked() && Adopted(g, donor, a) && Acyclic(g) && Acyclic(h)
    requires forall l :: l in donor.info ==> l !in g.info
    requires forall i :: i in donor.source ==> i in h.source && h.source[i] == donor.source[i]
    ensures Acyclic(a)
  {
    var rg: map<LayerId, nat> :| Ranked(g, rg);
    var rh: map<LayerId, nat> :| Ranked(h, rh);
    var rank := RanksOver(a.info.Keys, rg, rh);
    forall i | i in a.source
      ensures i.layer in rank && a.source[i].layer in rank && rank[a.source[i].layer] < rank[i.layer]
    {
      MergedClimb(g, donor, a, h, rg, rh, i);
    }
    assert Ranked(a, rank);
  }

  /** Ranks by the first map, for layers it lacks by the second. */
  ghost function RanksOver(layers: set<LayerId>, p: map<LayerId, nat>, q: map<LayerId, nat>): (r: map<LayerId, nat>)
    ensures r.Keys == layers
    ensures forall l :: l in layers ==> r[l] == if l in p then p[l] else if l in q then q[l] else 0
  {
    map l | l in layers :: if l in p then p[l] else if l in q then q[l] else 0
  }

  lemma {:induction false} MergedClimb(g: Net, donor: Net, a: Net, h: Net, rg: map<LayerId, nat>, rh: map<LayerId, nat>, i: InSlot)
    requires g.Linked() && donor.Linked() && Adopted(g, donor, a) && Ranked(g, rg) && Ranked(h, rh) && i in a.source
    requires forall l :: l in donor.info ==> l !in g.info
    requires i in donor.source ==> i in h.source && h.source[i] == donor.source[i]
    ensures var rank := RanksOver(a.info.Keys, rg, rh);
      i.layer in rank && a.source[i].layer in rank && rank[a.source[i].layer] < rank[i.layer]
  {
    assert g.SourceOK(i) && donor.SourceOK(i);
  }

  /** The whole substitution, seen from the graph it started from. */
  lemma {:induction false} SubstituteKeepsMeaning(g: Net, donor: Net, a: Net, h: Net, f: Sem, view: View, sub: View)
    requires g.Linked() && Donates(g, donor) && Adopted(g, donor, a) && Acyclic(g)
    requires Replaceable(a, h, view, sub) && Acyclic(h) && SameFunction(a, f, view, sub)
    requires forall l :: l in donor.info ==> l in sub.layers
    ensures forall l :: l in g.info && l !in view.layers && l !in sub.layers && g.info[l].numIn > 0 ==> l in h.info && Reaching(h, f, l) == Reaching(g, f, l)
    ensures forall o :: g.IsOut(o) && o.layer !in view.layers && o.layer !in sub.layers ==> h.IsOut(o) && Meaning(h, f)[o] == Meaning(g, f)[o]
  {
    AdoptedIsAcyclic(g, donor, a, h, view, sub);
    AdoptionKeepsMeaning(g, donor, a);
    SameMeaning(g, a, f);
    SubstitutionKeepsMeaning(a, h, f, view, sub);
  }
}
