/** The mutable graph: slots, layers and the operations that edit them. */
module GraphModel {
  import opened Sequences
  import opened NetGraph
  import opened Edges
  import opened Evaluation
  import opened Ordering
  import opened LayerEdits
  import opened Priorities

  datatype Error = InvalidArgument | CircularDependency | TooManyEdges

  datatype Result<+T> = Ok(value: T) | Err(error: Error)

  class Graph {
    var layers: seq<LayerId>
    var info: map<LayerId, LayerInfo>
    var source: map<InSlot, OutSlot>
    var sinks: map<OutSlot, seq<InSlot>>
    var strategies: map<OutSlot, seq<EdgeStrategy>>
    var overridden: map<InSlot, TensorInfo>
    var inputIds: set<int>
    var outputIds: set<int>
    var layersInOrder: bool
    var priority: map<LayerId, nat>
    var visiting: set<LayerId>
    var nextGuid: nat

    function Snapshot(): Net
      reads this
    {
      Net(layers, info, source, sinks, strategies, overridden)
    }

    ghost predicate Valid()
      reads this
    {
      ValidState(Snapshot(), inputIds, outputIds, nextGuid)
    }

    constructor ()
      ensures Valid() && layersInOrder && Sorted(Snapshot())
      ensures layers == [] && info == map[] && source == map[]
    {
      layers, info, source, sinks, strategies, overridden := [], map[], map[], map[], map[], map[];
      inputIds, outputIds, layersInOrder, priority, visiting, nextGuid := {}, {}, true, map[], {}, 0;
      new;
      assert Ranks(Snapshot()) == [];
      assert forall o :: Snapshot().SinksOK(o);
      assert forall i :: Snapshot().SourceOK(i);
    }

    /** OutputSlot::Connect. Fails, changing nothing, when the input slot already has a connection. */
    method Connect(o: OutSlot, i: InSlot) returns (r: Result<nat>)
      requires Snapshot().Linked() && Snapshot().IsOut(o) && Snapshot().IsIn(i)
      modifies this`source, this`sinks, this`strategies
      ensures r.Ok? <==> old(i !in source)
      ensures r.Err? ==> Snapshot() == old(Snapshot())
      ensures r.Ok? ==> Snapshot() == old(Snapshot()).Link(o, i) && r.value == |old(Snapshot()).Sinks(o)|
      ensures r.Ok? ==> source == old(source)[i := o] && Snapshot().Sinks(o) == old(Snapshot()).Sinks(o) + [i]
      ensures forall p :: p != o ==> Snapshot().Sinks(p) == old(Snapshot()).Sinks(p) && Snapshot().Strategies(p) == old(Snapshot()).Strategies(p)
      ensures r.Ok? ==> r.value < |Snapshot().Strategies(o)| && Snapshot().Strategies(o)[r.value] == Undefined
      ensures Snapshot().Linked()
    {
      if i in source {
        return Err(InvalidArgument);
      }
      LinkKeepsLinked(Snapshot(), o, i);
      assert Snapshot().SinksOK(o);
      var connections := Snapshot().Sinks(o);
      source := source[i := o];
      sinks := sinks[o := connections + [i]];
      strategies := strategies[o := Snapshot().Strategies(o) + [Undefined]];
      return Ok(|connections|);
    }

    /** OutputSlot::Disconnect. The back pointer is cleared before membership is checked, hence the
        precondition. */
    method Disconnect(o: OutSlot, i: InSlot)
      requires Snapshot().Linked()
      requires i in source ==> source[i] == o
      modifies this`source, this`sinks, this`strategies
      ensures Snapshot() == old(Snapshot()).Unlink(o, i)
      ensures Snapshot().Linked()
    {
      ghost var g := Snapshot();
      assert g.SourceOK(i) && g.SinksOK(o);
      var connections := Snapshot().Sinks(o);
      source := source - {i};
      var k := Find(connections, i);
      if k == |connections| {
        assert source == g.source;
        return;
      }
      UnlinkKeepsLinked(g, o, i);
      sinks := sinks[o := RemoveAt(connections, k)];
      strategies := strategies[o := RemoveAt(Snapshot().Strategies(o), k)];
    }

    /** OutputSlot::SetEdgeStrategy. */
    method SetEdgeStrategy(o: OutSlot, k: nat, s: EdgeStrategy)
      requires Snapshot().Linked() && k < |Snapshot().Sinks(o)| && k < |Snapshot().Strategies(o)|
      modifies this`strategies
      ensures Snapshot() == old(Snapshot()).WithStrategy(o, k, s)
      ensures Snapshot().Linked()
    {
      WithStrategyKeeps(Snapshot(), o, k, s);
      strategies := strategies[o := Snapshot().Strategies(o)[k := s]];
    }

    /** OutputSlot::DisconnectAll, run when an output slot dies. */
    method DisconnectAll(o: OutSlot)
      requires Snapshot().Linked()
      modifies this`source, this`sinks, this`strategies
      ensures Snapshot().Linked()
      ensures Detached(old(Snapshot()), Snapshot(), o)
    {
      while |Snapshot().Sinks(o)| > 0
        invariant Snapshot().Linked() && Detaching(old(Snapshot()), Snapshot(), o)
        decreases |Snapshot().Sinks(o)|
      {
        var i := Snapshot().Sinks(o)[0];
        DetachingStep(old(Snapshot()), Snapshot(), o, i);
        Disconnect(o, i);
      }
      DetachingDone(old(Snapshot()), Snapshot(), o);
    }

    /** OutputSlot::MoveAllConnections. Ends because the destination is another slot. */
    method MoveAllConnections(o: OutSlot, d: OutSlot)
      requires Snapshot().Linked() && o != d && Snapshot().IsOut(d)
      requires Unassigned(Snapshot(), o)
      modifies this`source, this`sinks, this`strategies
      ensures Snapshot().Linked()
      ensures Moved(old(Snapshot()), Snapshot(), o, d)
    {
      ghost var moved: seq<InSlot> := [];
      while |Snapshot().Sinks(o)| > 0
        invariant Snapshot().Linked() && Snapshot().IsOut(d) && Moving(old(Snapshot()), Snapshot(), o, d, moved)
        decreases |Snapshot().Sinks(o)|
      {
        ghost var h := Snapshot();
        var i := Snapshot().Sinks(o)[0];
        ghost var m := h.Unlink(o, i);
        RerouteFirst(h, i, o, d, m, m.Link(d, i));
        Reroute(h, i, o, d, m, m.Link(d, i));
        Disconnect(o, i);
        var r := Connect(d, i);
        MovingStep(old(Snapshot()), h, Snapshot(), i, o, d, moved);
        moved := moved + [i];
      }
      SinksAreReaders(old(Snapshot()), o);
      MovingDone(old(Snapshot()), Snapshot(), o, d, moved);
    }

    /** Graph::ForwardToEndOfInputsAndConstants. */
    method ForwardToEndOfInputsAndConstants(p: nat) returns (q: nat)
      requires Snapshot().Listed() && p <= |layers|
      ensures p <= q <= |layers|
      ensures forall k :: p <= k < q ==> info[layers[k]].kind.Input? || info[layers[k]].kind.Constant?
      ensures q < |layers| ==> !info[layers[q]].kind.Input? && !info[layers[q]].kind.Constant?
    {
      q := p;
      while q < |layers| && (info[layers[q]].kind.Input? || info[layers[q]].kind.Constant?)
        invariant p <= q <= |layers|
        invariant forall k :: p <= k < q ==> info[layers[k]].kind.Input? || info[layers[k]].kind.Constant?
      {
        q := q + 1;
      }
    }

    /** Graph::RewindToBeginOfOutputs. */
    method RewindToBeginOfOutputs(p: nat) returns (r: nat)
      requires Snapshot().Listed() && p <= |layers|
      ensures r <= p
      ensures forall k :: r <= k < p ==> info[layers[k]].kind.Output?
      ensures r > 0 ==> !info[layers[r - 1]].kind.Output?
    {
      r := p;
      while r > 0 && info[layers[r - 1]].kind.Output?
        invariant r <= p
        invariant forall k :: r <= k < p ==> info[layers[k]].kind.Output?
      {
        r := r - 1;
      }
    }

    /** LayerInGraphBase::Insert: a new layer object enters the list at position q. */
    method EnterList(q: nat, li: LayerInfo) returns (n: LayerId)
      requires Snapshot().Valid() && (forall l :: l in info ==> l < nextGuid)
      requires q <= |layers| && li.WellShaped()
      modifies this`layers, this`info, this`nextGuid
      ensures n == old(nextGuid) && nextGuid == n + 1 && ListedAt(old(Snapshot()), Snapshot(), q, n, li)
      ensures Snapshot().Valid() && (forall l :: l in info ==> l < nextGuid)
    {
      ghost var g := Snapshot();
      n := nextGuid;
      nextGuid := nextGuid + 1;
      layers := InsertAt(layers, q, n);
      info := info[n := li];
      ListedAtKeeps(g, Snapshot(), q, n, li);
      AddedIsLinked(g, Snapshot(), n, li);
    }

    /** LayerInGraphBase::Remove for the layer that has just entered the list of g. */
    method LeaveList(q: nat, n: LayerId, ghost g: Net)
      requires q < |layers| && RemoveAt(layers, q) == g.layers && info - {n} == g.info && overridden == g.overridden
      requires source == g.source && sinks == g.sinks && strategies == g.strategies
      modifies this`layers, this`info
      ensures Snapshot() == g
    {
      layers := RemoveAt(layers, q);
      info := info - {n};
    }

    /** The layer leaves the list again. */
    method Withdraw(q: nat, n: LayerId, ghost g: Net, ghost li: LayerInfo)
      requires ValidState(g, inputIds, outputIds, n) && nextGuid == n + 1
      requires ListedAt(g, Snapshot(), q, n, li) && Snapshot().source == g.source
      requires Snapshot().sinks == g.sinks && Snapshot().strategies == g.strategies
      modifies this`layers, this`info
      ensures Valid() && Snapshot() == g
    {
      ListingUndone(g, Snapshot(), q, n, li);
      LeaveList(q, n, g);
      StillValid(g, inputIds, outputIds, n, nextGuid);
    }

    /** The id bookkeeping of the bound layers' constructors. */
    method RegisterId(ghost g: Net, ghost q: nat, n: LayerId, li: LayerInfo)
      requires ValidState(g, inputIds, outputIds, n) && nextGuid == n + 1
      requires ListedAt(g, Snapshot(), q, n, li) && Snapshot().Valid()
      requires li.kind.Input? ==> li.bindingId !in inputIds
      requires li.kind.Output? ==> li.bindingId !in outputIds
      modifies this`inputIds, this`outputIds
      ensures Valid()
      ensures inputIds == IdsWith(li, 0, old(inputIds)) && outputIds == IdsWith(li, 2, old(outputIds))
    {
      ghost var h := Snapshot();
      RegisteredIsValid(g, h, inputIds, outputIds, q, n, li);
      inputIds, outputIds := IdsWith(li, 0, inputIds), IdsWith(li, 2, outputIds);
      assert Snapshot() == h;
    }

    /** Whether a layer of this type and binding id is refused. */
    predicate Duplicate(li: LayerInfo)
      reads this`inputIds, this`outputIds
    {
      (li.kind.Input? && li.bindingId in inputIds) || (li.kind.Output? && li.bindingId in outputIds)
    }

    /** The LayerInGraph constructors. A duplicate binding id is found after the layer has entered the
        list, so it is taken out again. */
    method Construct(q: nat, li: LayerInfo) returns (r: Result<LayerId>)
      requires Valid() && q <= |layers| && li.WellShaped()
      modifies this`layers, this`info, this`nextGuid, this`inputIds, this`outputIds
      ensures Valid()
      ensures r.Err? <==> old(Duplicate(li))
      ensures r.Err? ==> Snapshot() == old(Snapshot()) && inputIds == old(inputIds) && outputIds == old(outputIds)
      ensures r.Ok? ==> ListedAt(old(Snapshot()), Snapshot(), q, r.value, li)
      ensures r.Ok? ==> inputIds == IdsWith(li, 0, old(inputIds)) && outputIds == IdsWith(li, 2, old(outputIds))
    {
      ghost var g := Snapshot();
      var n := EnterList(q, li);
      if Duplicate(li) {
        Withdraw(q, n, g, li);
        return Err(InvalidArgument);
      }
      RegisterId(g, q, n, li);
      return Ok(n);
    }

    method PositionFor(li: LayerInfo) returns (q: nat)
      requires Valid()
      ensures q == AddPosition(Snapshot(), li)
      ensures q == if li.kind.Input? || li.kind.Constant? then |inputIds| else if li.kind.Output? then |layers| else |layers| - |outputIds|
    {
      BoundAtMost(Snapshot(), 2);
      IdsSize(Snapshot(), 0, inputIds);
      IdsSize(Snapshot(), 2, outputIds);
      q := if li.kind.Input? || li.kind.Constant? then |inputIds|
           else if li.kind.Output? then |layers|
           else |layers| - |outputIds|;
    }

    /** Graph::AddLayer. */
    method AddLayer(li: LayerInfo) returns (r: Result<LayerId>)
      requires Valid() && li.WellShaped()
      modifies this`layers, this`info, this`nextGuid, this`inputIds, this`outputIds, this`layersInOrder
      ensures Valid()
      ensures r.Err? <==> old(Duplicate(li))
      ensures r.Err? <==> IdTaken(old(Snapshot()), li)
      ensures r.Err? ==> Snapshot() == old(Snapshot()) && inputIds == old(inputIds) && outputIds == old(outputIds)
      ensures r.Err? ==> layersInOrder == old(layersInOrder)
      ensures r.Ok? ==> ListedAt(old(Snapshot()), Snapshot(), AddPosition(old(Snapshot()), li), r.value, li)
      ensures r.Ok? ==> inputIds == IdsWith(li, 0, old(inputIds)) && outputIds == IdsWith(li, 2, old(outputIds))
      ensures r.Ok? ==> layersInOrder == (old(layersInOrder) && (li.kind.Input? || li.kind.Output?))
      ensures r.Ok? ==> Pos(Snapshot(), r.value) == if li.kind.Input? || li.kind.Constant? then |old(inputIds)|
                                                    else if li.kind.Output? then |old(layers)|
                                                    else |old(layers)| - |old(outputIds)|
      ensures r.Ok? ==> OrderKept(old(Snapshot()), Snapshot())
      ensures r.Ok? && Partitioned(old(Snapshot())) ==> StandsRight(old(Snapshot()), Snapshot(), r.value, li.kind)
      ensures Sorted(old(Snapshot())) ==> Sorted(Snapshot())
    {
      var q := PositionFor(li);
      layersInOrder := layersInOrder && (li.kind.Input? || li.kind.Output?);
      r := AddAt(q, li);
    }

    /** The new layer at the position that is right for its type. */
    method AddAt(q: nat, li: LayerInfo) returns (r: Result<LayerId>)
      requires Valid() && li.WellShaped() && q == AddPosition(Snapshot(), li)
      modifies this`layers, this`info, this`nextGuid, this`inputIds, this`outputIds
      ensures Valid()
      ensures r.Err? <==> old(Duplicate(li))
      ensures r.Err? <==> IdTaken(old(Snapshot()), li)
      ensures r.Err? ==> Snapshot() == old(Snapshot()) && inputIds == old(inputIds) && outputIds == old(outputIds)
      ensures r.Ok? ==> ListedAt(old(Snapshot()), Snapshot(), q, r.value, li)
      ensures r.Ok? ==> inputIds == IdsWith(li, 0, old(inputIds)) && outputIds == IdsWith(li, 2, old(outputIds))
      ensures r.Ok? ==> Pos(Snapshot(), r.value) == q && OrderKept(old(Snapshot()), Snapshot())
      ensures r.Ok? && Partitioned(old(Snapshot())) ==> StandsRight(old(Snapshot()), Snapshot(), r.value, li.kind)
      ensures Sorted(old(Snapshot())) ==> Sorted(Snapshot())
    {
      ghost var g := Snapshot();
      IdTakenExactly(g, inputIds, outputIds, nextGuid, li);
      r := Construct(q, li);
      if r.Ok? {
        AddKeepsOrder(g, Snapshot(), q, r.value, li);
        Added(g, Snapshot(), q, r.value, li);
      }
    }

    /** InputSlot::Insert: puts layer n, so far unconnected, in front of input slot i. */
    method Insert(i: InSlot, n: LayerId)
      requires Snapshot().Linked() && Snapshot().IsIn(i) && i.layer != n
      requires Snapshot().IsOut(OutSlot(n, 0)) && Snapshot().Sinks(OutSlot(n, 0)) == []
      requires i in source ==> Snapshot().IsIn(InSlot(n, 0)) && InSlot(n, 0) !in source
      modifies this`source, this`sinks, this`strategies
      ensures Snapshot().Linked() && InsertedBefore(old(Snapshot()), Snapshot(), i, n)
    {
      ghost var g := Snapshot();
      if i in source {
        var o := source[i];
        ghost var m := g.Unlink(o, i);
        InsertedIsLinked(g, i, n, m, m.Link(o, InSlot(n, 0)));
        Disconnect(o, i);
        var k := Connect(o, InSlot(n, 0));
        ResetStrategy(o, k.value);
      } else {
        InsertedUnconnected(g, i, n);
      }
      var k := Connect(OutSlot(n, 0), i);
      ResetStrategy(OutSlot(n, 0), 0);
    }

    /** Marks a connection that was just made as having no strategy, which it does not. */
    method ResetStrategy(o: OutSlot, k: nat)
      requires Snapshot().Linked() && k < |Snapshot().Sinks(o)|
      requires k < |Snapshot().Strategies(o)| && Snapshot().Strategies(o)[k] == Undefined
      modifies this`strategies
      ensures Snapshot() == old(Snapshot())
    {
      SameStrategy(Snapshot(), o, k);
      SetEdgeStrategy(o, k, Undefined);
    }

    /** The destructors of layer l's output slots. */
    method DestroyOutputs(l: LayerId)
      requires Snapshot().Linked() && l in info
      modifies this`source, this`sinks, this`strategies
      ensures Snapshot().Linked() && Shedding(old(Snapshot()), Snapshot(), l)
      ensures forall i :: i in source ==> source[i].layer != l
    {
      ghost var g := Snapshot();
      SheddingStart(g, l);
      var k := 0;
      while k < info[l].numOut
        invariant Snapshot().Linked() && Shedding(g, Snapshot(), l)
        invariant k <= info[l].numOut
        invariant forall i :: i in source && source[i].layer == l ==> k <= source[i].index
      {
        ghost var h := Snapshot();
        DisconnectAll(OutSlot(l, k));
        SheddingDetached(g, h, Snapshot(), OutSlot(l, k));
        k := k + 1;
      }
      forall i | i in source
        ensures source[i].layer != l
      {
        assert Snapshot().SourceOK(i);
      }
    }

    /** The destructors of layer l's input slots. */
    method DestroyInputs(l: LayerId, ghost g: Net)
      requires Snapshot().Linked() && l in info && Shedding(g, Snapshot(), l)
      requires forall i :: i in source ==> source[i].layer != l
      modifies this`source, this`sinks, this`strategies
      ensures Snapshot().Linked() && Shedding(g, Snapshot(), l)
      ensures forall i :: i in source ==> i.layer != l && source[i].layer != l
    {
      var k := 0;
      while k < info[l].numIn
        invariant Snapshot().Linked() && Shedding(g, Snapshot(), l)
        invariant k <= info[l].numIn
        invariant forall i :: i in source ==> source[i].layer != l
        invariant forall i :: i in source && i.layer == l ==> k <= i.index
      {
        DestroyInput(InSlot(l, k), g);
        k := k + 1;
      }
      forall i | i in source
        ensures i.layer != l
      {
        assert Snapshot().SourceOK(i);
      }
    }

    /** ~InputSlot. */
    method DestroyInput(i: InSlot, ghost g: Net)
      requires Snapshot().Linked() && Shedding(g, Snapshot(), i.layer)
      modifies this`source, this`sinks, this`strategies
      ensures Snapshot().Linked() && Shedding(g, Snapshot(), i.layer)
      ensures source == old(source) - {i}
    {
      if i in source {
        SheddingUnlinked(g, Snapshot(), i);
        Disconnect(source[i], i);
      } else {
        assert source - {i} == source;
      }
    }

    /** The layer object, with no edges left, leaves the graph and frees its binding id. */
    method Discard(l: LayerId, ghost g: Net)
      requires Snapshot().Linked() && l in info && l in layers && Shedding(g, Snapshot(), l)
      requires forall i :: i in source ==> i.layer != l && source[i].layer != l
      requires ValidState(g, inputIds, outputIds, nextGuid) && layers == g.layers
      modifies this`layers, this`info, this`overridden, this`inputIds, this`outputIds
      ensures Valid() && Erased(g, Snapshot(), l)
      ensures inputIds == IdsWithout(g.info[l], 0, old(inputIds)) && outputIds == IdsWithout(g.info[l], 2, old(outputIds))
    {
      ghost var m := Snapshot();
      var k := Find(layers, l);
      var li := info[l];
      layers, info, overridden := RemoveAt(layers, k), info - {l}, ForgetLayer(overridden, l);
      ghost var h := Snapshot();
      DiscardedIsErased(g, m, h, l, inputIds, outputIds, nextGuid);
      inputIds, outputIds := IdsWithout(li, 0, inputIds), IdsWithout(li, 2, outputIds);
      assert Snapshot() == h;
    }

    /** Graph::EraseLayer: deleting the layer destroys its slots, takes it off the list and frees its id. */
    method EraseLayer(l: LayerId)
      requires Valid() && l in info
      modifies this`layers, this`info, this`overridden, this`source, this`sinks, this`strategies, this`inputIds, this`outputIds
      ensures Valid() && Erased(old(Snapshot()), Snapshot(), l)
      ensures inputIds == IdsWithout(old(info)[l], 0, old(inputIds)) && outputIds == IdsWithout(old(info)[l], 2, old(outputIds))
      ensures Sorted(old(Snapshot())) ==> Sorted(Snapshot())
    {
      ghost var g := Snapshot();
      assert l in layers;
      DestroyOutputs(l);
      DestroyInputs(l, g);
      Discard(l, g);
      ErasedKeepsOrder(g, Snapshot(), l);
    }

    /** The position of a new middle layer that is asked to go before position p. */
    method FixPosition(p: nat) returns (ghost r: nat, q: nat)
      requires Snapshot().Listed() && p <= |layers|
      ensures InsertionPoint(Snapshot(), p, r, q)
    {
      var b := RewindToBeginOfOutputs(p);
      r := b;
      q := ForwardToEndOfInputsAndConstants(b);
    }

    /** The layer list's part of InsertNewLayer. */
    method EnterNear(p: nat, li: LayerInfo) returns (n: LayerId, ghost r: nat, ghost q: nat)
      requires Valid() && p <= |layers| && li.WellShaped() && li.Rank() == 1
      modifies this`layers, this`info, this`nextGuid, this`inputIds, this`outputIds
      ensures Valid() && inputIds == old(inputIds) && outputIds == old(outputIds)
      ensures InsertionPoint(old(Snapshot()), p, r, q) && Entered(old(Snapshot()), Snapshot(), q, n, li)
    {
      var at;
      r, at := FixPosition(p);
      q := at;
      var c := Construct(at, li);
      n := c.value;
    }

    /** Right after the parent if there is one, else right at the child. */
    method PositionBefore(i: InSlot) returns (p: nat)
      requires Snapshot().Valid() && Snapshot().IsIn(i)
      ensures p == SpotBefore(Snapshot(), i) && p <= |layers|
    {
      assert Snapshot().SourceOK(i);
      assert i.layer in layers && (i in source ==> source[i].layer in layers);
      if i in source {
        p := Find(layers, source[i].layer);
        p := p + 1;
      } else {
        p := Find(layers, i.layer);
      }
    }

    /** Graph::InsertNewLayer before an input slot, for a middle layer with one output, and with an input if the
        slot is connected. */
    method InsertNewLayerBefore(i: InSlot, li: LayerInfo) returns (n: LayerId, ghost r: nat, ghost q: nat)
      requires Valid() && Snapshot().IsIn(i)
      requires li.WellShaped() && li.Rank() == 1 && !li.kind.Constant? && li.numOut == 1 && (i in source ==> li.numIn > 0)
      modifies this`layers, this`info, this`nextGuid, this`inputIds, this`outputIds, this`source, this`sinks, this`strategies
      ensures Valid() && inputIds == old(inputIds) && outputIds == old(outputIds)
      ensures NewBefore(old(Snapshot()), Snapshot(), i, q, n, li)
      ensures i in old(source) ==> InsertionPoint(old(Snapshot()), Pos(old(Snapshot()), old(source)[i].layer) + 1, r, q)
      ensures i !in old(source) ==> InsertionPoint(old(Snapshot()), Pos(old(Snapshot()), i.layer), r, q)
      ensures Sorted(old(Snapshot())) ==> Sorted(Snapshot())
    {
      ghost var g := Snapshot();
      var p := PositionBefore(i);
      n, r, q := EnterNear(p, li);
      ConnectBefore(i, n, li, g, r, q);
    }

    /** The connections' part of InsertNewLayer before an input slot. */
    method ConnectBefore(i: InSlot, n: LayerId, ghost li: LayerInfo, ghost g: Net, ghost r: nat, ghost q: nat)
      requires Valid() && Entered(g, Snapshot(), q, n, li) && g.Valid() && g.IsIn(i)
      requires li.WellShaped() && li.Rank() == 1 && !li.kind.Constant? && li.numOut == 1 && (i in g.source ==> li.numIn > 0)
      requires InsertionPoint(g, SpotBefore(g, i), r, q)
      modifies this`source, this`sinks, this`strategies
      ensures Valid() && NewBefore(g, Snapshot(), i, q, n, li) && (Sorted(g) ==> Sorted(Snapshot()))
    {
      ghost var m := Snapshot();
      AddedIsLinked(g, m, n, li);
      Insert(i, n);
      InsertedBeforeDone(g, m, Snapshot(), i, r, q, n, li, inputIds, outputIds, nextGuid);
    }

    /** The connections' part of InsertNewLayer after an output slot. */
    method TakeOver(o: OutSlot, n: LayerId)
      requires Snapshot().Linked() && Snapshot().IsOut(o) && o.layer != n
      requires Snapshot().IsOut(OutSlot(n, 0)) && Snapshot().Sinks(OutSlot(n, 0)) == []
      requires Snapshot().IsIn(InSlot(n, 0)) && InSlot(n, 0) !in source
      requires Unassigned(Snapshot(), o)
      modifies this`source, this`sinks, this`strategies
      ensures Snapshot().Linked() && TakenOver(old(Snapshot()), Snapshot(), o, n)
    {
      ghost var g := Snapshot();
      MoveAllConnections(o, OutSlot(n, 0));
      MovedThenLinked(g, Snapshot(), o, n);
      var r := Connect(o, InSlot(n, 0));
    }

    /** Graph::InsertNewLayer after an output slot, for a middle layer with one input and one output. */
    method InsertNewLayerAfter(o: OutSlot, li: LayerInfo) returns (n: LayerId, ghost r: nat, ghost q: nat)
      requires Valid() && Snapshot().IsOut(o)
      requires li.WellShaped() && li.Rank() == 1 && li.numIn == 1 && li.numOut == 1
      requires Unassigned(Snapshot(), o)
      modifies this`layers, this`info, this`nextGuid, this`inputIds, this`outputIds, this`source, this`sinks, this`strategies
      ensures Valid() && inputIds == old(inputIds) && outputIds == old(outputIds)
      ensures NewAfter(old(Snapshot()), Snapshot(), o, q, n, li)
      ensures InsertionPoint(old(Snapshot()), Pos(old(Snapshot()), o.layer) + 1, r, q)
      ensures Sorted(old(Snapshot())) ==> Sorted(Snapshot())
    {
      ghost var g := Snapshot();
      assert o.layer in layers;
      var p := Find(layers, o.layer);
      n, r, q := EnterNear(p + 1, li);
      ConnectAfter(o, n, li, g, r, q);
    }

    method ConnectAfter(o: OutSlot, n: LayerId, ghost li: LayerInfo, ghost g: Net, ghost r: nat, ghost q: nat)
      requires Valid() && Entered(g, Snapshot(), q, n, li) && g.Valid() && g.IsOut(o) && Unassigned(g, o)
      requires li.WellShaped() && li.Rank() == 1 && li.numIn == 1 && li.numOut == 1
      requires InsertionPoint(g, Pos(g, o.layer) + 1, r, q)
      modifies this`source, this`sinks, this`strategies
      ensures Valid() && NewAfter(g, Snapshot(), o, q, n, li) && (Sorted(g) ==> Sorted(Snapshot()))
    {
      ghost var m := Snapshot();
      AddedIsLinked(g, m, n, li);
      assert m.Strategies(o) == g.Strategies(o);
      TakeOver(o, n);
      InsertedAfterDone(g, m, Snapshot(), o, r, q, n, li, inputIds, outputIds, nextGuid);
    }

    /** OutputSlot::CalculateIndexOnOwner, which compares slots by the contents of their connection lists. */
    method CalculateIndexOnOwner(o: OutSlot) returns (k: nat)
      requires Snapshot().Linked() && Snapshot().IsOut(o)
      ensures FirstWithSameSinks(Snapshot(), o, k)
      ensures k == o.index <==> Snapshot().Sinks(o) != [] || forall j: nat :: j < o.index ==> Snapshot().Sinks(OutSlot(o.layer, j)) != []
    {
      k := 0;
      while Snapshot().Sinks(OutSlot(o.layer, k)) != Snapshot().Sinks(o)
        invariant k <= o.index
        invariant forall j: nat :: j < k ==> Snapshot().Sinks(OutSlot(o.layer, j)) != Snapshot().Sinks(o)
        decreases o.index - k
      {
        assert k != o.index;
        k := k + 1;
      }
      IndexByContents(Snapshot(), o, k);
    }

    /** Layer::GetPriority: a memoised depth-first walk towards the Inputs. A layer met while it is
        under visit closes a cycle; the visiting marks of the aborted walk stay behind. */
    method GetPriority(l: LayerId, ghost stack: seq<LayerId>) returns (r: Result<nat>)
      requires Snapshot().Valid() && l in info
      requires StackOK(Snapshot(), visiting, stack, l) && VisitingUnset(Snapshot(), priority, visiting)
      requires PrioritiesOK(Snapshot(), priority)
      modifies this`priority, this`visiting
      ensures PrioritiesOK(Snapshot(), priority) && Extends(Snapshot(), old(priority), priority)
      ensures r.Ok? ==> visiting == old(visiting) && VisitingUnset(Snapshot(), priority, visiting)
      ensures r.Ok? ==> Done(Snapshot(), priority, l) && r.value == PrioOf(Snapshot(), priority, l)
      ensures r.Ok? && info[l].kind.Input? ==> r.value == 0
      ensures r.Ok? && info[l].kind.Output? ==> r.value == 0xFFFF_FFFF
      ensures r.Ok? && !info[l].kind.Input? && !info[l].kind.Output? ==> r.value > 0
      ensures r.Err? ==> WalkFailed(r.error)
      decreases |info.Keys - visiting|, 2
    {
      ghost var g := Snapshot();
      if info[l].kind.Input? {
        RecordBound(g, priority, l, 0);
        priority := priority[l := 0];
      } else if info[l].kind.Output? {
        RecordBound(g, priority, l, MAX_PRIORITY);
        priority := priority[l := MAX_PRIORITY];
      } else if l !in priority || priority[l] == 0 {
        r := Visit(l, stack);
        return;
      }
      return Ok(priority[l]);
    }

    /** GetPriority for a middle layer whose priority is not known yet. */
    method Visit(l: LayerId, ghost stack: seq<LayerId>) returns (r: Result<nat>)
      requires Snapshot().Valid() && IsMiddle(Snapshot(), l) && PrioOf(Snapshot(), priority, l) == 0
      requires StackOK(Snapshot(), visiting, stack, l) && VisitingUnset(Snapshot(), priority, visiting)
      requires PrioritiesOK(Snapshot(), priority)
      modifies this`priority, this`visiting
      ensures PrioritiesOK(Snapshot(), priority) && Extends(Snapshot(), old(priority), priority)
      ensures r.Ok? ==> visiting == old(visiting) && VisitingUnset(Snapshot(), priority, visiting)
      ensures r.Ok? ==> Done(Snapshot(), priority, l) && r.value == PrioOf(Snapshot(), priority, l)
      ensures r.Err? ==> WalkFailed(r.error)
      decreases |info.Keys - visiting|, 1
    {
      if l in visiting {
        ClosedCycle(Snapshot(), visiting, stack, l);
        return Err(CircularDependency);
      }
      r := VisitParents(l, stack);
    }

    /** The visit of l, now under a mark. */
    method VisitParents(l: LayerId, ghost stack: seq<LayerId>) returns (r: Result<nat>)
      requires Snapshot().Valid() && IsMiddle(Snapshot(), l) && PrioOf(Snapshot(), priority, l) == 0 && l !in visiting
      requires StackOK(Snapshot(), visiting, stack, l) && VisitingUnset(Snapshot(), priority, visiting)
      requires PrioritiesOK(Snapshot(), priority)
      modifies this`priority, this`visiting
      ensures PrioritiesOK(Snapshot(), priority) && Extends(Snapshot(), old(priority), priority)
      ensures r.Ok? ==> visiting == old(visiting) && VisitingUnset(Snapshot(), priority, visiting)
      ensures r.Ok? ==> Done(Snapshot(), priority, l) && r.value == PrioOf(Snapshot(), priority, l)
      ensures r.Err? ==> WalkFailed(r.error)
      decreases |info.Keys - visiting|, 0
    {
      SubsetSize(info.Keys - (visiting + {l}), info.Keys - visiting - {l});
      visiting := visiting + {l};
      r := LargestParent(l, stack);
      if r.Err? {
        return;
      }
      assert visiting - {l} == old(visiting);
      r := EndVisit(l, r.value, old(priority));
    }

    /** GetPriority once the parents of l are known. */
    method EndVisit(l: LayerId, parentPrio: nat, ghost before: map<LayerId, nat>) returns (r: Result<nat>)
      requires Snapshot().Valid() && IsMiddle(Snapshot(), l) && l in visiting
      requires PrioritiesOK(Snapshot(), priority) && Extends(Snapshot(), before, priority)
      requires VisitingUnset(Snapshot(), priority, visiting) && ParentsDone(Snapshot(), priority, l, info[l].numIn)
      requires parentPrio == ParentMax(Snapshot(), priority, l, info[l].numIn)
      modifies this`priority, this`visiting
      ensures PrioritiesOK(Snapshot(), priority) && Extends(Snapshot(), before, priority)
      ensures r.Ok? ==> visiting == old(visiting) - {l} && VisitingUnset(Snapshot(), priority, visiting)
      ensures r.Ok? ==> Done(Snapshot(), priority, l) && r.value == PrioOf(Snapshot(), priority, l)
      ensures r.Err? ==> WalkFailed(r.error)
    {
      ghost var g, marks := Snapshot(), visiting - {l};
      visiting := visiting - {l};
      if parentPrio >= MAX_PRIORITY {
        TooDeep(g, priority, l);
        return Err(TooManyEdges);
      }
      assert marks + {l} == old(visiting);
      VisitDone(g, before, priority, priority[l := parentPrio + 1], l, marks);
      priority := priority[l := parentPrio + 1];
      return Ok(parentPrio + 1);
    }

    /** The accumulation over the input slots of l inside GetPriority. */
    method LargestParent(l: LayerId, ghost stack: seq<LayerId>) returns (r: Result<nat>)
      requires Snapshot().Valid() && l in info && l in visiting
      requires StackOK(Snapshot(), visiting - {l}, stack, l) && VisitingUnset(Snapshot(), priority, visiting)
      requires PrioritiesOK(Snapshot(), priority)
      modifies this`priority, this`visiting
      ensures PrioritiesOK(Snapshot(), priority) && Extends(Snapshot(), old(priority), priority)
      ensures r.Ok? ==> visiting == old(visiting) && VisitingUnset(Snapshot(), priority, visiting)
      ensures r.Ok? ==> ParentsDone(Snapshot(), priority, l, info[l].numIn)
      ensures r.Ok? ==> r.value == ParentMax(Snapshot(), priority, l, info[l].numIn)
      ensures r.Err? ==> WalkFailed(r.error)
      decreases |info.Keys - visiting|, 4
    {
      ghost var g := Snapshot();
      ghost var marks := visiting;
      var prio := 0;
      var k := 0;
      while k < info[l].numIn
        invariant k <= info[l].numIn
        invariant visiting == marks && VisitingUnset(g, priority, visiting)
        invariant PrioritiesOK(g, priority) && Extends(g, old(priority), priority)
        invariant ParentsDone(g, priority, l, k) && prio == ParentMax(g, priority, l, k)
      {
        var up := OneParent(l, k, prio, stack, old(priority));
        if up.Err? {
          return up;
        }
        prio := up.value;
        k := k + 1;
      }
      return Ok(prio);
    }

    /** The layer that feeds the k-th input slot of l, if any. */
    method OneParent(l: LayerId, k: nat, prio: nat, ghost stack: seq<LayerId>, ghost before: map<LayerId, nat>) returns (r: Result<nat>)
      requires Snapshot().Valid() && l in info && l in visiting && k < info[l].numIn
      requires StackOK(Snapshot(), visiting - {l}, stack, l) && VisitingUnset(Snapshot(), priority, visiting)
      requires PrioritiesOK(Snapshot(), priority) && Extends(Snapshot(), before, priority)
      requires ParentsDone(Snapshot(), priority, l, k) && prio == ParentMax(Snapshot(), priority, l, k)
      modifies this`priority, this`visiting
      ensures PrioritiesOK(Snapshot(), priority) && Extends(Snapshot(), before, priority)
      ensures r.Ok? ==> visiting == old(visiting) && VisitingUnset(Snapshot(), priority, visiting)
      ensures r.Ok? ==> ParentsDone(Snapshot(), priority, l, k + 1)
      ensures r.Ok? ==> r.value == ParentMax(Snapshot(), priority, l, k + 1)
      ensures r.Err? ==> WalkFailed(r.error)
      decreases |info.Keys - visiting|, 3
    {
      ghost var g, p := Snapshot(), priority;
      r := Ok(prio);
      if InSlot(l, k) in source {
        ParentIsNoOutput(g, InSlot(l, k));
        Deeper(g, visiting - {l}, stack, l, InSlot(l, k));
        assert visiting - {l} + {l} == visiting;
        r := GetPriority(source[InSlot(l, k)].layer, stack + [l]);
        if r.Err? {
          ExtendsTransitive(g, before, p, priority);
          return;
        }
        r := Ok(Max(prio, r.value));
      }
      ParentVisited(g, p, priority, l, k);
      ExtendsTransitive(g, before, p, priority);
    }

    /** What an aborted walk means. */
    ghost predicate WalkFailed(e: Error)
      reads this
    {
      && (e == CircularDependency || e == TooManyEdges)
      && (e == CircularDependency ==> exists c :: IsCycle(Snapshot(), c))
      && (e == TooManyEdges ==> |info| >= 0xFFFF_FFFF)
    }

    /** Layer::ResetPriority on every layer. */
    method ResetPriorities()
      requires Snapshot().Valid()
      modifies this`priority, this`visiting
      ensures visiting == {} && PrioritiesOK(Snapshot(), priority) && VisitingUnset(Snapshot(), priority, visiting)
    {
      ghost var g := Snapshot();
      var k := 0;
      while k < |layers|
        invariant k <= |layers|
        invariant forall j :: 0 <= j < k ==> layers[j] in priority && priority[layers[j]] == 0
      {
        priority := priority[layers[k] := 0];
        visiting := visiting - {layers[k]};
        k := k + 1;
      }
      // Any mark left belongs to an erased layer and died with it.
      visiting := {};
      ResetDone(g, priority);
    }

    /** The comparison that sorts the list. */
    method ComesBefore(a: LayerId, b: LayerId) returns (r: Result<bool>)
      requires Snapshot().Valid() && a in info && b in info
      requires PrioritiesOK(Snapshot(), priority) && visiting == {}
      modifies this`priority, this`visiting
      ensures PrioritiesOK(Snapshot(), priority) && Extends(Snapshot(), old(priority), priority)
      ensures r.Ok? ==> visiting == {} && Known(Snapshot(), priority, [a, b])
      ensures r.Ok? ==> r.value == (PrioOf(Snapshot(), priority, a) < PrioOf(Snapshot(), priority, b))
      ensures r.Err? ==> WalkFailed(r.error)
    {
      ghost var g := Snapshot();
      var pa := GetPriority(a, []);
      if pa.Err? {
        return Err(pa.error);
      }
      ghost var p := priority;
      var pb := GetPriority(b, []);
      ExtendsTransitive(g, old(priority), p, priority);
      if pb.Err? {
        return Err(pb.error);
      }
      KnownStays(g, p, priority, [a]);
      assert a in [a];
      return Ok(pa.value < pb.value);
    }

    /** std::list::sort: a stable sort that asks for priorities as it compares. With fewer than two
        layers nothing is compared. A comparison that throws leaves the list in some order. */
    method SortByPriority() returns (r: Result<()>, s: seq<LayerId>)
      requires Snapshot().Valid() && PrioritiesOK(Snapshot(), priority) && visiting == {}
      modifies this`priority, this`visiting
      ensures PrioritiesOK(Snapshot(), priority) && Reordered(layers, s)
      ensures r.Ok? ==> StablySorted(Snapshot(), priority, layers, s)
      ensures r.Ok? && |layers| >= 2 ==> Known(Snapshot(), priority, s)
      ensures r.Err? ==> |layers| >= 2 && WalkFailed(r.error)
    {
      ghost var g := Snapshot();
      if |layers| < 2 {
        ShortIsSorted(g, priority, layers);
        return Ok(()), layers;
      }
      s := [layers[0]];
      ShortIsSorted(g, priority, [layers[0]]);
      assert layers[..1] == [layers[0]];
      var n := 1;
      while n < |layers|
        invariant 1 <= n <= |layers| && Placed(n, s)
      {
        var t := PlaceNext(n, s);
        if t.Err? {
          ReorderedPrefix(layers, n, s);
          return Err(t.error), s + layers[n..];
        }
        s := t.value;
        n := n + 1;
      }
      assert layers[..n] == layers;
      r := Ok(());
    }

    /** The n-th layer joins the sorted earlier ones. */
    method PlaceNext(n: nat, s: seq<LayerId>) returns (r: Result<seq<LayerId>>)
      requires Snapshot().Valid() && 1 <= n < |layers| && Placed(n, s)
      modifies this`priority, this`visiting
      ensures PrioritiesOK(Snapshot(), priority)
      ensures r.Ok? ==> Placed(n + 1, r.value)
      ensures r.Err? ==> WalkFailed(r.error)
    {
      ghost var g := Snapshot();
      var k := Place(n, s);
      if k.Err? {
        return Err(k.error);
      }
      PlacedNext(g, priority, layers, s, n, k.value);
      return Ok(InsertAt(s, k.value, layers[n]));
    }

    /** s lists the first n layers in order. */
    ghost predicate Placed(n: nat, s: seq<LayerId>)
      requires n <= |layers|
      reads this
    {
      && visiting == {} && PrioritiesOK(Snapshot(), priority)
      && StablySorted(Snapshot(), priority, layers[..n], s) && (n >= 2 ==> Known(Snapshot(), priority, s))
    }

    /** The sorted layers from position k on come after the n-th layer. */
    ghost predicate Placing(n: nat, s: seq<LayerId>, k: nat)
      requires n < |layers|
      reads this
    {
      && k <= |s| && visiting == {} && PrioritiesOK(Snapshot(), priority)
      && StablySorted(Snapshot(), priority, layers[..n], s) && (n >= 2 || k < |s| ==> Known(Snapshot(), priority, s))
      && (k < |s| ==> Done(Snapshot(), priority, layers[n]))
      && (forall j :: k <= j < |s| ==> PrioOf(Snapshot(), priority, layers[n]) < PrioOf(Snapshot(), priority, s[j]))
    }

    /** Whether the n-th layer goes before the sorted layer at position k - 1. */
    method GoesBefore(n: nat, s: seq<LayerId>, k: nat) returns (r: Result<bool>)
      requires Snapshot().Valid() && 1 <= n < |layers| && Placing(n, s, k) && k > 0
      modifies this`priority, this`visiting
      ensures PrioritiesOK(Snapshot(), priority)
      ensures r.Ok? ==> Placing(n, s, k) && Known(Snapshot(), priority, s) && Done(Snapshot(), priority, layers[n])
      ensures r.Ok? && r.value ==> Placing(n, s, k - 1)
      ensures r.Ok? && !r.value ==> PrioOf(Snapshot(), priority, s[k - 1]) <= PrioOf(Snapshot(), priority, layers[n])
      ensures r.Err? ==> WalkFailed(r.error)
    {
      ghost var g, p := Snapshot(), priority;
      assert layers[n] in layers && s[k - 1] in s;
      r := ComesBefore(layers[n], s[k - 1]);
      if r.Ok? {
        Compared(g, p, priority, layers[..n], s, layers[n], k);
        assert layers[n] in [layers[n], s[k - 1]] && s[k - 1] in [layers[n], s[k - 1]];
      }
    }

    /** Where the n-th layer goes among the sorted earlier ones: behind the last that is not larger. */
    method Place(n: nat, s: seq<LayerId>) returns (r: Result<nat>)
      requires Snapshot().Valid() && 1 <= n < |layers| && Placed(n, s)
      modifies this`priority, this`visiting
      ensures PrioritiesOK(Snapshot(), priority)
      ensures r.Ok? ==> Placing(n, s, r.value) && Known(Snapshot(), priority, s) && Done(Snapshot(), priority, layers[n])
      ensures r.Ok? && r.value > 0 ==> PrioOf(Snapshot(), priority, s[r.value - 1]) <= PrioOf(Snapshot(), priority, layers[n])
      ensures r.Err? ==> WalkFailed(r.error)
    {
      var k: nat := |s|;
      while k > 0
        invariant Placing(n, s, k)
        invariant k < |s| ==> Known(Snapshot(), priority, s) && Done(Snapshot(), priority, layers[n])
      {
        var less := GoesBefore(n, s, k);
        if less.Err? {
          return Err(less.error);
        }
        if !less.value {
          return Ok(k);
        }
        k := k - 1;
      }
      return Ok(k);
    }

    /** Two or more layers, and fewer than there are priorities. */
    predicate Sortable()
      reads this`layers
    {
      2 <= |layers| < 0xFFFF_FFFF
    }

    /** The list in priority order; on a cycle it fails and the order is arbitrary. */
    method Ordered() returns (r: Result<()>, s: seq<LayerId>)
      requires Snapshot().Valid()
      modifies this`priority, this`visiting
      ensures Reordered(layers, s)
      ensures r.Ok? ==> StablySorted(Snapshot(), priority, layers, s)
      ensures r.Ok? && Sortable() ==> AllDone(Snapshot(), priority) && Acyclic(Snapshot()) && Sorted(Snapshot().(layers := s))
      ensures r.Err? ==> |layers| >= 2 && WalkFailed(r.error) && (Sortable() ==> !Acyclic(Snapshot()))
    {
      ghost var g := Snapshot();
      ResetPriorities();
      r, s := SortByPriority();
      LayerCount(g);
      if Sortable() {
        if r.Err? {
          SortFailed(g);
        } else {
          SortSucceeded(g, priority, s);
        }
      }
    }

    /** Graph::TopologicalSort when the list is out of order. */
    method Sort() returns (r: Result<()>)
      requires Valid() && !layersInOrder
      modifies this`priority, this`visiting, this`layers, this`layersInOrder
      ensures Valid() && Snapshot() == old(Snapshot()).(layers := layers) && Reordered(old(layers), layers)
      ensures r.Ok? ==> layersInOrder && StablySorted(old(Snapshot()), priority, old(layers), layers)
      ensures r.Ok? ==> forall a, b :: TieKept(old(Snapshot()), Snapshot(), priority, a, b)
      ensures r.Err? ==> !layersInOrder && |layers| >= 2 && WalkFailed(r.error)
      ensures Sortable() && r.Ok? ==> AllDone(old(Snapshot()), priority) && Acyclic(old(Snapshot())) && Sorted(Snapshot())
      ensures Sortable() && r.Err? ==> !Acyclic(old(Snapshot()))
    {
      ghost var g := Snapshot();
      var s;
      r, s := Ordered();
      assert Snapshot() == g;
      Relist(s, r.Ok?);
      if r.Ok? {
        TiesKept(g, Snapshot(), priority);
      }
      if r.Err? && r.error == CircularDependency {
        CycleRelisted(g, Snapshot());
      }
    }

    /** The reordered list takes the place of the old one. */
    method Relist(s: seq<LayerId>, inOrder: bool)
      requires Valid() && Reordered(layers, s)
      modifies this`layers, this`layersInOrder
      ensures Valid() && Snapshot() == old(Snapshot()).(layers := s) && layersInOrder == inOrder
    {
      ReorderedIsValid(Snapshot(), s, inputIds, outputIds, nextGuid);
      layers, layersInOrder := s, inOrder;
    }

    /** Graph::TopologicalSort. The flag is only set when the sort succeeds; a sort that fails leaves
        the layers in some order. With the flag down, two or more layers and fewer layers than
        priorities, the sort succeeds exactly on acyclic graphs. */
    method TopologicalSort() returns (r: Result<()>)
      requires Valid()
      modifies this`priority, this`visiting, this`layers, this`layersInOrder
      ensures Valid() && Snapshot() == old(Snapshot()).(layers := layers) && Reordered(old(layers), layers)
      ensures old(layersInOrder) ==> r.Ok? && layers == old(layers) && layersInOrder
      ensures r.Ok? ==> layersInOrder
      ensures r.Err? ==> !layersInOrder && |layers| >= 2 && WalkFailed(r.error)
      ensures r.Ok? && !old(layersInOrder) ==> StablySorted(old(Snapshot()), priority, old(layers), layers)
      ensures r.Ok? ==> forall a, b :: TieKept(old(Snapshot()), Snapshot(), priority, a, b)
      ensures r.Ok? && Sortable() && !old(layersInOrder) ==> AllDone(old(Snapshot()), priority)
      ensures Sortable() && !old(layersInOrder) ==> (r.Ok? <==> Acyclic(old(Snapshot())))
      ensures r.Ok? && Sortable() && old(layersInOrder ==> Sorted(Snapshot())) ==> Sorted(Snapshot())
    {
      if layersInOrder {
        return Ok(());
      }
      r := Sort();
    }
  }
}
