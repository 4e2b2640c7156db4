/**
  The tables by which a working memory finds the handles of inputs and outputs, and when they are right: an Output has
  the handle of the slot it reads exactly if that slot belongs to a layer with a descriptor.
 */
module BindingTables {
  import opened Sequences
  import opened NetGraph
  import opened Ordering
  import opened WorkingMemHandle
  import opened Connections
  import LoadedNetwork
  import ReadInputs

  /** For every binding id the places to write an imported handle to, and the handle that belongs there. */
  datatype Tables = Tables(connections: map<int, seq<Coord>>, handles: map<int, Handle>)
  {
    /** All places of a binding hold the binding's own handle. */
    ghost predicate Tied(cells: map<Coord, Handle>) {
      forall b, c :: b in connections && c in connections[b] ==> c in cells && b in handles && cells[c] == handles[b]
    }
  }

  /** The places where the readers of o find its handle. */
  lemma {:induction false} CoordsHold(g: Net, handles: map<OutSlot, Handle>, cells: map<Coord, Handle>, o: OutSlot)
    requires g.Valid() && o in handles && CellsOK(g, handles, cells, |g.layers|, 0)
    ensures forall c :: c in CoordsOf(g, ReadersOf(g, o, |g.layers|, 0)) ==> c in cells && cells[c] == handles[o]
  {
    var s := ReadersOf(g, o, |g.layers|, 0);
    ReadersMembers(g, o, |g.layers|, 0);
    forall c | c in CoordsOf(g, s)
      ensures c in cells && cells[c] == handles[o]
    {
      var n := IndexOf(CoordsOf(g, s), c);
      assert s[n] in s && c == CoordOf(g, s[n]);
      assert CellOK(g, handles, cells, |g.layers|, 0, s[n]);
    }
  }

  /** The entry for Input l: the places of all readers, in order, and the Input's own handle. */
  ghost predicate InputTabled(g: Net, handles: map<OutSlot, Handle>, t: Tables, l: LayerId) {
    && l in g.info && g.info[l].bindingId in t.connections && g.info[l].bindingId in t.handles && OutSlot(l, 0) in handles
    && t.connections[g.info[l].bindingId] == CoordsOf(g, ReadersOf(g, OutSlot(l, 0), |g.layers|, 0))
    && t.handles[g.info[l].bindingId] == handles[OutSlot(l, 0)]
  }

  ghost predicate InputsTabled(g: Net, handles: map<OutSlot, Handle>, t: Tables, k: nat) {
    && (forall j :: 0 <= j < k && j < |g.layers| && g.layers[j] in g.info && g.info[g.layers[j]].kind.Input? ==> InputTabled(g, handles, t, g.layers[j]))
    && (forall b :: b in t.handles ==> exists l :: InputOf(g, l, b))
  }

  ghost predicate InputOf(g: Net, l: LayerId, b: int) {
    l in g.info && g.info[l].kind.Input? && g.info[l].bindingId == b
  }

  lemma {:induction false} InputAdded(g: Net, handles: map<OutSlot, Handle>, cells: map<Coord, Handle>, t: Tables, t': Tables, k: nat, k': nat)
    requires g.Valid() && LoadedNetwork.BindingsDiffer(g, 0) && k < |g.layers| && k' == k + 1 && g.layers[k] in g.info
    requires g.info[g.layers[k]].kind.Input? && InputsTabled(g, handles, t, k)
    requires var b := g.info[g.layers[k]].bindingId;
      b in t'.connections && b in t'.handles && t' == Tables(t.connections[b := t'.connections[b]], t.handles[b := t'.handles[b]])
    requires InputTabled(g, handles, t', g.layers[k])
    ensures InputsTabled(g, handles, t', k')
  {
    assert InputOf(g, g.layers[k], g.info[g.layers[k]].bindingId);
    forall j | 0 <= j < k' && g.layers[j] in g.info && g.info[g.layers[j]].kind.Input?
      ensures InputTabled(g, handles, t', g.layers[j])
    {
      if j < k {
        NoDupDistinct(g.layers, j, k);
        assert InputTabled(g, handles, t, g.layers[j]);
      }
    }
  }

  /** The loop over the inputs in the constructor of WorkingMemHandle. It reads the handle of an Input from the place
      of the first reader, so there must be one. */
  method TableInputs(g: Net, ghost handles: map<OutSlot, Handle>, infos: map<OutSlot, HandleInfo>, cells: map<Coord, Handle>) returns (t: Tables)
    requires Walkable(g, handles) && ReadInputs.InputsRead(g) && LoadedNetwork.BindingsDiffer(g, 0)
    requires InfosOK(g, infos, |g.layers|, 0, 0) && CellsOK(g, handles, cells, |g.layers|, 0)
    ensures InputsTabled(g, handles, t, |g.layers|) && t.Tied(cells)
  {
    t := Tables(map[], map[]);
    var k: nat := 0;
    while k < |g.layers|
      invariant k <= |g.layers| && InputsTabled(g, handles, t, k) && t.Tied(cells)
    {
      assert g.layers[k] in g.layers;
      var next := k + 1;
      if g.info[g.layers[k]].kind.Input? {
        t := TableInput(g, handles, infos, cells, t, k, next);
      } else {
        NoInputHere(g, handles, t, k, next);
      }
      k := next;
    }
  }

  lemma {:induction false} NoInputHere(g: Net, handles: map<OutSlot, Handle>, t: Tables, k: nat, next: nat)
    requires InputsTabled(g, handles, t, k) && k < |g.layers| && next == k + 1 && g.layers[k] in g.info && !g.info[g.layers[k]].kind.Input?
    ensures InputsTabled(g, handles, t, next)
  {
  }

  method TableInput(g: Net, ghost handles: map<OutSlot, Handle>, infos: map<OutSlot, HandleInfo>, cells: map<Coord, Handle>, t: Tables, k: nat,
                    ghost next: nat)
    returns (t': Tables)
    requires Walkable(g, handles) && ReadInputs.InputsRead(g) && LoadedNetwork.BindingsDiffer(g, 0)
    requires InfosOK(g, infos, |g.layers|, 0, 0) && CellsOK(g, handles, cells, |g.layers|, 0)
    requires k < |g.layers| && next == k + 1 && g.layers[k] in g.info && g.info[g.layers[k]].kind.Input?
    requires InputsTabled(g, handles, t, k) && t.Tied(cells)
    ensures InputsTabled(g, handles, t', next) && t'.Tied(cells)
  {
    var l := g.layers[k];
    var o, b := OutSlot(l, 0), g.info[l].bindingId;
    InputInfo(g, infos, l, o);
    CoordsHold(g, handles, cells, o);
    var coords := infos[o].inputCoords;
    HasMember(coords);
    t' := Tables(t.connections[b := coords], t.handles[b := cells[coords[0]]]);
    InputTied(t, t', cells, b, coords, handles[o]);
    InputAdded(g, handles, cells, t, t', k, next);
  }

  lemma {:induction false} InputTied(t: Tables, t': Tables, cells: map<Coord, Handle>, b: int, coords: seq<Coord>, h: Handle)
    requires t.Tied(cells) && t' == Tables(t.connections[b := coords], t.handles[b := h])
    requires forall c :: c in coords ==> c in cells && cells[c] == h
    ensures t'.Tied(cells)
  {
  }

  lemma {:induction false} InputInfo(g: Net, infos: map<OutSlot, HandleInfo>, l: LayerId, o: OutSlot)
    requires g.Valid() && ReadInputs.InputsRead(g) && InfosOK(g, infos, |g.layers|, 0, 0)
    requires l in g.info && g.info[l].kind.Input? && o == OutSlot(l, 0)
    ensures g.IsOut(o) && o in infos && infos[o].inputCoords == CoordsOf(g, ReadersOf(g, o, |g.layers|, 0)) && infos[o].inputCoords != []
  {
    assert l in g.layers && g.info[l].WellShaped();
    assert InfoAt(g, infos, o, |g.layers|, 0, ReadersOf(g, o, |g.layers|, 0)) && Tracked(g, o, |g.layers|, 0);
    assert ReadInputs.HasReader(g, l);
    var i :| i in g.source && g.source[i].layer == l;
    assert g.SourceOK(i);
    AllReaders(g, o, i);
  }

  /** Every Output reads a layer with a descriptor, neither an Input nor a Constant. */
  ghost predicate OutputsFed(g: Net) {
    forall l :: l in g.info && g.info[l].kind.Output? && InSlot(l, 0) in g.source ==> HasExecutionData(g, g.source[InSlot(l, 0)].layer)
  }

  /** Every Output has something where its handle is looked for. */
  ghost predicate OutputsFound(g: Net, a: Collected) {
    forall l :: l in g.info && g.info[l].kind.Output? && InSlot(l, 0) in g.source ==> FoundAt(g, g.source[InSlot(l, 0)]) in a.outputs
  }

  /** The entry for Output l: the handle found for the slot it reads, and, unless other Outputs read it too, the recorded
      places of that slot's readers. */
  ghost predicate OutputTabled(g: Net, a: Collected, t: Tables, l: LayerId)
    requires l in g.info && InSlot(l, 0) in g.source
  {
    var b, o := g.info[l].bindingId, g.source[InSlot(l, 0)];
    var s := ReadersOf(g, o, |g.layers|, 0);
    && FoundAt(g, o) in a.outputs && b in t.handles && t.handles[b] == a.outputs[FoundAt(g, o)]
    && if |BindingsOf(g, s)| == 1 then b in t.connections && t.connections[b] == CoordsOf(g, Recorded(g, o, s)) else b !in t.connections
  }

  /** The Output is tabled once the slot it reads has been dealt with, and not before. */
  ghost predicate OutputDone(g: Net, a: Collected, t: Tables, done: set<OutSlot>, l: LayerId) {
    l in g.info && g.info[l].kind.Output? && InSlot(l, 0) in g.source ==>
      if g.source[InSlot(l, 0)] in done then OutputTabled(g, a, t, l)
      else g.info[l].bindingId !in t.handles && g.info[l].bindingId !in t.connections
  }

  /** Only Outputs are tabled. */
  ghost predicate OutputsDone(g: Net, a: Collected, t: Tables, done: set<OutSlot>) {
    && (forall l :: OutputDone(g, a, t, done, l))
    && (forall b :: b in t.connections || b in t.handles ==> exists l :: OutputOf(g, l, b))
  }

  ghost predicate OutputOf(g: Net, l: LayerId, b: int) {
    l in g.info && g.info[l].kind.Output? && g.info[l].bindingId == b
  }

  lemma {:induction false} BindingsMembers(g: Net, s: seq<InSlot>, b: int)
    ensures b in BindingsOf(g, s) <==> exists i :: i in s && i.layer in g.info && g.info[i.layer].kind.Output? && g.info[i.layer].bindingId == b
  {
    if s != [] {
      var t, i := s[..|s| - 1], s[|s| - 1];
      BindingsMembers(g, t, b);
      assert forall j :: j in s <==> j in t || j == i;
    }
  }

  /** The bindings of a slot are those of the Outputs that read it. */
  lemma {:induction false} BindingsOfSlot(g: Net, o: OutSlot, l: LayerId)
    requires g.Valid() && LoadedNetwork.BindingsDiffer(g, 2) && l in g.info && g.info[l].kind.Output? && InSlot(l, 0) in g.source
    ensures g.info[l].bindingId in BindingsOf(g, ReadersOf(g, o, |g.layers|, 0)) <==> g.source[InSlot(l, 0)] == o
  {
    var s, b := ReadersOf(g, o, |g.layers|, 0), g.info[l].bindingId;
    BindingsMembers(g, s, b);
    AllReaders(g, o, InSlot(l, 0));
    if b in BindingsOf(g, s) {
      var i :| i in s && i.layer in g.info && g.info[i.layer].kind.Output? && g.info[i.layer].bindingId == b;
      AllReaders(g, o, i);
      assert g.SourceOK(i) && g.info[i.layer].WellShaped();
      assert i == InSlot(l, 0);
    }
  }

  /** A binding of a slot is that of an Output that reads it. */
  lemma {:induction false} OutputOfBinding(g: Net, o: OutSlot, b: int) returns (l: LayerId)
    requires g.Valid() && b in BindingsOf(g, ReadersOf(g, o, |g.layers|, 0))
    ensures OutputOf(g, l, b) && InSlot(l, 0) in g.source && g.source[InSlot(l, 0)] == o
  {
    var s := ReadersOf(g, o, |g.layers|, 0);
    BindingsMembers(g, s, b);
    var i :| i in s && i.layer in g.info && g.info[i.layer].kind.Output? && g.info[i.layer].bindingId == b;
    AllReaders(g, o, i);
    assert g.SourceOK(i) && g.info[i.layer].WellShaped() && i == InSlot(i.layer, 0);
    l := i.layer;
  }

  /** t' is t with the handle h for the given bindings, and with the places for the only one. */
  ghost predicate Added(t: Tables, t': Tables, bindings: seq<int>, coords: seq<Coord>, h: Handle) {
    && (forall b :: b in t'.handles <==> b in t.handles || b in bindings)
    && (forall b :: b in t'.handles ==> t'.handles[b] == if b in bindings then h else t.handles[b])
    && t'.connections == if |bindings| == 1 then t.connections[bindings[0] := coords] else t.connections
  }

  /** Slot o has been dealt with: nothing to do without an Output that reads it. */
  ghost predicate SlotTabled(g: Net, a: Collected, t: Tables, t': Tables, o: OutSlot) {
    var s := ReadersOf(g, o, |g.layers|, 0);
    if BindingsOf(g, s) == [] then t' == t
    else FoundAt(g, o) in a.outputs && Added(t, t', BindingsOf(g, s), CoordsOf(g, Recorded(g, o, s)), a.outputs[FoundAt(g, o)])
  }

  lemma {:induction false} OutputAdded(g: Net, a: Collected, t: Tables, t': Tables, done: set<OutSlot>, o: OutSlot, l: LayerId)
    requires g.Valid() && LoadedNetwork.BindingsDiffer(g, 2) && o !in done && OutputDone(g, a, t, done, l) && SlotTabled(g, a, t, t', o)
    ensures OutputDone(g, a, t', done + {o}, l)
  {
    if l in g.info && g.info[l].kind.Output? && InSlot(l, 0) in g.source {
      BindingsOfSlot(g, o, l);
    }
  }

  lemma {:induction false} OutputsAdded(g: Net, a: Collected, t: Tables, t': Tables, done: set<OutSlot>, o: OutSlot)
    requires g.Valid() && LoadedNetwork.BindingsDiffer(g, 2) && o !in done && OutputsDone(g, a, t, done) && SlotTabled(g, a, t, t', o)
    ensures OutputsDone(g, a, t', done + {o})
  {
    forall l
      ensures OutputDone(g, a, t', done + {o}, l)
    {
      assert OutputDone(g, a, t, done, l);
      OutputAdded(g, a, t, t', done, o, l);
    }
    forall b | b in t'.connections || b in t'.handles
      ensures exists l :: OutputOf(g, l, b)
    {
      if b !in t.connections && b !in t.handles {
        var l := OutputOfBinding(g, o, b);
      }
    }
  }

  /** One handle for several bindings. */
  method AssignAll(own: map<int, Handle>, bindings: seq<int>, h: Handle) returns (own': map<int, Handle>)
    ensures forall b :: b in own' <==> b in own || b in bindings
    ensures forall b :: b in own' ==> own'[b] == if b in bindings then h else own[b]
  {
    own' := own;
    var n := 0;
    while n < |bindings|
      invariant n <= |bindings|
      invariant forall b :: b in own' <==> b in own || b in bindings[..n]
      invariant forall b :: b in own' ==> own'[b] == if b in bindings[..n] then h else own[b]
    {
      assert bindings[..n + 1] == bindings[..n] + [bindings[n]];
      own' := own'[bindings[n] := h];
      n := n + 1;
    }
    assert bindings[..n] == bindings;
  }

  /** What has been collected about slot o. */
  lemma {:induction false} SlotInfo(g: Net, a: Collected, o: OutSlot)
    requires g.Valid() && InfosOK(g, a.infos, |g.layers|, 0, 0) && g.IsOut(o)
    ensures var s := ReadersOf(g, o, |g.layers|, 0);
      if o !in a.infos then BindingsOf(g, s) == []
      else
        && a.infos[o].bindings == BindingsOf(g, s) && a.infos[o].at == FoundAt(g, o)
        && (a.infos[o].bindings != [] ==> a.infos[o].isOutput && a.infos[o].outputCoords == CoordsOf(g, Recorded(g, o, s)))
  {
    var s := ReadersOf(g, o, |g.layers|, 0);
    assert InfoAt(g, a.infos, o, |g.layers|, 0, s);
    assert o.layer in g.layers;
    assert !g.info[o.layer].kind.Constant? ==> Tracked(g, o, |g.layers|, 0);
    if BindingsOf(g, s) != [] {
      HasMember(BindingsOf(g, s));
      var l := OutputOfBinding(g, o, BindingsOf(g, s)[0]);
      OutputFlags(g, InSlot(l, 0));
    }
  }

  /** One slot. The lookup among the descriptors can fail. */
  method TableOutput(g: Net, a: Collected, t: Tables, o: OutSlot, ghost done: set<OutSlot>) returns (ok: bool, t': Tables)
    requires g.Valid() && LoadedNetwork.BindingsDiffer(g, 2) && InfosOK(g, a.infos, |g.layers|, 0, 0) && g.IsOut(o) && o !in done
    requires OutputsDone(g, a, t, done)
    ensures ok ==> OutputsDone(g, a, t', done + {o})
    ensures !ok ==> !OutputsFound(g, a)
  {
    SlotInfo(g, a, o);
    t' := t;
    if o in a.infos && a.infos[o].isOutput && a.infos[o].bindings != [] {
      var e := a.infos[o];
      if e.at !in a.outputs {
        HasMember(e.bindings);
        ghost var l := OutputOfBinding(g, o, e.bindings[0]);
        return false, t;
      }
      var own := AssignAll(t.handles, e.bindings, a.outputs[e.at]);
      t' := Tables(if |e.bindings| == 1 then t.connections[e.bindings[0] := e.outputCoords] else t.connections, own);
    }
    OutputsAdded(g, a, t, t', done, o);
    ok := true;
  }

  /** The slots of the first k layers and the first j slots of the next. */
  ghost predicate Walked(g: Net, o: OutSlot, k: nat, j: nat) {
    g.IsOut(o) && (Pos(g, o.layer) < k || (Pos(g, o.layer) == k && o.index < j))
  }

  lemma {:induction false} LayerWalked(g: Net, k: nat)
    requires g.Listed() && k < |g.layers| && g.layers[k] in g.info
    ensures forall o :: Walked(g, o, k + 1, 0) <==> Walked(g, o, k, g.info[g.layers[k]].numOut)
  {
    IndexOfUnique(g.layers, k);
    var k' := k + 1;
    forall o
      ensures Walked(g, o, k', 0) <==> Walked(g, o, k, g.info[g.layers[k]].numOut)
    {
      assert o.layer in g.info ==> o.layer in g.layers;
    }
  }

  lemma {:induction false} SlotWalked(g: Net, k: nat, j: nat, o: OutSlot)
    requires g.Listed() && k < |g.layers| && o == OutSlot(g.layers[k], j) && g.IsOut(o)
    ensures forall p :: Walked(g, p, k, j + 1) <==> Walked(g, p, k, j) || p == o
    ensures !Walked(g, o, k, j)
  {
    IndexOfUnique(g.layers, k);
    var j' := j + 1;
    forall p
      ensures Walked(g, p, k, j') <==> Walked(g, p, k, j) || p == o
    {
      assert p.layer in g.info ==> p.layer in g.layers;
    }
  }

  /** The slots of the layer at position k. */
  method TableLayer(g: Net, a: Collected, t: Tables, k: nat, ghost done: set<OutSlot>)
    returns (ok: bool, t': Tables, ghost done': set<OutSlot>)
    requires g.Valid() && LoadedNetwork.BindingsDiffer(g, 2) && InfosOK(g, a.infos, |g.layers|, 0, 0)
    requires k < |g.layers| && g.layers[k] in g.info && OutputsDone(g, a, t, done) && forall o :: o in done <==> Walked(g, o, k, 0)
    ensures ok ==> OutputsDone(g, a, t', done') && forall o :: o in done' <==> Walked(g, o, k, g.info[g.layers[k]].numOut)
    ensures !ok ==> !OutputsFound(g, a)
  {
    t', done' := t, done;
    var l := g.layers[k];
    var j := 0;
    while j < g.info[l].numOut
      invariant j <= g.info[l].numOut && OutputsDone(g, a, t', done')
      invariant forall o :: o in done' <==> Walked(g, o, k, j)
    {
      var o := OutSlot(l, j);
      SlotWalked(g, k, j, o);
      ok, t' := TableOutput(g, a, t', o, done');
      if !ok {
        return;
      }
      done' := done' + {o};
      j := j + 1;
    }
    ok := true;
  }

  /** The loop over the outputs in the constructor of WorkingMemHandle. It fails exactly if some Output's handle is looked
      for where no descriptor has an output. */
  method TableOutputs(g: Net, a: Collected) returns (ok: bool, t: Tables)
    requires g.Valid() && (forall i :: g.IsIn(i) ==> i in g.source) && LoadedNetwork.BindingsDiffer(g, 2)
    requires InfosOK(g, a.infos, |g.layers|, 0, 0)
    ensures ok <==> OutputsFound(g, a)
    ensures ok ==> AllTabled(g, a, t) && forall l :: PlacesTabled(g, t, l)
  {
    t := Tables(map[], map[]);
    ghost var done: set<OutSlot> := {};
    var k: nat := 0;
    while k < |g.layers|
      invariant k <= |g.layers| && OutputsDone(g, a, t, done)
      invariant forall o :: o in done <==> Walked(g, o, k, 0)
    {
      assert g.layers[k] in g.layers;
      LayerWalked(g, k);
      ok, t, done := TableLayer(g, a, t, k, done);
      if !ok {
        return;
      }
      k := k + 1;
    }
    EverySlotDone(g, a, t, done);
    EveryPlaceTabled(g, a, t);
    ok := true;
  }

  /** The reader i of slot o is at place c, and counts: of a Constant's readers the Outputs alone do. */
  ghost predicate ReadsAt(g: Net, o: OutSlot, i: InSlot, c: Coord) {
    && i in g.source && g.source[i] == o && CoordOf(g, i) == c
    && o.layer in g.info && i.layer in g.info && (g.info[o.layer].kind.Constant? ==> g.info[i.layer].kind.Output?)
  }

  /** Places are tabled for Output l exactly if no other Output reads its slot, and they are those of the slot's readers. */
  ghost predicate PlacesTabled(g: Net, t: Tables, l: LayerId) {
    l in g.info && g.info[l].kind.Output? && InSlot(l, 0) in g.source ==>
      && (g.info[l].bindingId in t.connections <==> IsAlone(g, l))
      && (IsAlone(g, l) ==> forall c :: c in t.connections[g.info[l].bindingId] <==> exists i :: ReadsAt(g, g.source[InSlot(l, 0)], i, c))
  }

  lemma {:induction false} EveryPlaceTabled(g: Net, a: Collected, t: Tables)
    requires g.Valid() && AllTabled(g, a, t)
    ensures forall l :: PlacesTabled(g, t, l)
  {
    forall l
      ensures PlacesTabled(g, t, l)
    {
      if l in g.info && g.info[l].kind.Output? && InSlot(l, 0) in g.source {
        assert g.SourceOK(InSlot(l, 0)) && OutputTabled(g, a, t, l);
        AloneExactly(g, l);
        RecordedPlaces(g, g.source[InSlot(l, 0)]);
      }
    }
  }

  /** The recorded places of a slot are those of its readers, of a Constant's slot those of the Outputs that read it. */
  lemma {:induction false} RecordedPlaces(g: Net, o: OutSlot)
    requires g.Valid() && o.layer in g.info
    ensures forall c :: c in CoordsOf(g, Recorded(g, o, ReadersOf(g, o, |g.layers|, 0))) <==> exists i :: ReadsAt(g, o, i, c)
  {
    var s := ReadersOf(g, o, |g.layers|, 0);
    var r := Recorded(g, o, s);
    ReadersDiffer(g, o, |g.layers|, 0);
    OutputsInDiffer(g, s);
    forall c
      ensures c in CoordsOf(g, r) <==> exists i :: ReadsAt(g, o, i, c)
    {
      if c in CoordsOf(g, r) {
        var i := r[IndexOf(CoordsOf(g, r), c)];
        assert i in r && c == CoordOf(g, i);
        AllReaders(g, o, i);
        assert g.SourceOK(i);
        assert ReadsAt(g, o, i, c);
      }
      if i :| ReadsAt(g, o, i, c) {
        AllReaders(g, o, i);
        assert i in r;
        assert CoordsOf(g, r)[IndexOf(r, i)] == c;
      }
    }
  }

  /** Every Output is tabled, and nothing else. */
  ghost predicate AllTabled(g: Net, a: Collected, t: Tables) {
    && (forall l :: l in g.info && g.info[l].kind.Output? ==> InSlot(l, 0) in g.source && OutputTabled(g, a, t, l))
    && (forall b :: b in t.connections || b in t.handles ==> exists l :: OutputOf(g, l, b))
  }

  lemma {:induction false} EverySlotDone(g: Net, a: Collected, t: Tables, done: set<OutSlot>)
    requires g.Valid() && (forall i :: g.IsIn(i) ==> i in g.source) && OutputsDone(g, a, t, done)
    requires forall o :: o in done <==> Walked(g, o, |g.layers|, 0)
    ensures AllTabled(g, a, t) && OutputsFound(g, a)
  {
    forall l | l in g.info && g.info[l].kind.Output?
      ensures InSlot(l, 0) in g.source && OutputTabled(g, a, t, l)
    {
      var i := InSlot(l, 0);
      assert g.info[l].WellShaped() && g.IsIn(i) && g.SourceOK(i);
      assert g.source[i].layer in g.layers;
      assert OutputDone(g, a, t, done, l);
    }
  }

  /** For every Output some descriptor output is where the Output's handle is looked for. */
  ghost predicate OutputsFindable(g: Net) {
    forall l :: l in g.info && g.info[l].kind.Output? && InSlot(l, 0) in g.source ==> Findable(g, FoundAt(g, g.source[InSlot(l, 0)]))
  }

  ghost predicate Findable(g: Net, x: Coord) {
    exists o :: g.IsOut(o) && HasExecutionData(g, o.layer) && OutCoordOf(g, o) == x
  }

  lemma {:induction false} FindableExactly(g: Net, handles: map<OutSlot, Handle>, a: Collected)
    requires Walkable(g, handles) && CollectedOK(g, handles, a, |g.layers|)
    ensures OutputsFindable(g) <==> OutputsFound(g, a)
  {
    forall x
      ensures Findable(g, x) <==> x in a.outputs
    {
      if Findable(g, x) {
        var o :| g.IsOut(o) && HasExecutionData(g, o.layer) && OutCoordOf(g, o) == x;
        assert o.layer in g.layers;
        assert OutputOK(g, handles, a.outputs, |g.layers|, 0, o) && Tracked(g, o, |g.layers|, 0);
      }
      if x in a.outputs {
        assert ComesFrom(g, handles, a.outputs[x], x);
      }
    }
  }

  /** Different slots have different handles. */
  ghost predicate HandlesDiffer(handles: map<OutSlot, Handle>) {
    forall o, p :: o in handles && p in handles && handles[o] == handles[p] ==> o == p
  }

  /** Where o's handle is looked for is o's own handle exactly if o belongs to a layer with a descriptor. */
  lemma {:induction false} FoundExactly(g: Net, handles: map<OutSlot, Handle>, a: Collected, o: OutSlot)
    requires Walkable(g, handles) && HandlesDiffer(handles) && CollectedOK(g, handles, a, |g.layers|) && g.IsOut(o)
    ensures FoundAt(g, o) in a.outputs && a.outputs[FoundAt(g, o)] == handles[o] <==> HasExecutionData(g, o.layer)
  {
    assert o.layer in g.layers;
    if HasExecutionData(g, o.layer) {
      assert OutputOK(g, handles, a.outputs, |g.layers|, 0, o) && Tracked(g, o, |g.layers|, 0);
    } else if FoundAt(g, o) in a.outputs {
      assert ComesFrom(g, handles, a.outputs[FoundAt(g, o)], FoundAt(g, o));
    }
  }

  /** The outputs' table is made, and maps every Output to the handle of the slot it reads, if and only if every Output
      reads a layer with a descriptor. */
  lemma {:induction false} OutputsRightExactly(g: Net, handles: map<OutSlot, Handle>, a: Collected, ok: bool, t: Tables)
    requires Walkable(g, handles) && HandlesDiffer(handles) && CollectedOK(g, handles, a, |g.layers|)
    requires (ok <==> OutputsFound(g, a)) && (ok ==> AllTabled(g, a, t))
    ensures (ok && forall l :: l in g.info && g.info[l].kind.Output? ==>
              InSlot(l, 0) in g.source && g.source[InSlot(l, 0)] in handles && g.info[l].bindingId in t.handles
              && t.handles[g.info[l].bindingId] == handles[g.source[InSlot(l, 0)]])
      <==> OutputsFed(g)
  {
    forall l | l in g.info && g.info[l].kind.Output?
      ensures InSlot(l, 0) in g.source && g.IsOut(g.source[InSlot(l, 0)]) && g.source[InSlot(l, 0)] in handles
      ensures var o := g.source[InSlot(l, 0)];
        FoundAt(g, o) in a.outputs && a.outputs[FoundAt(g, o)] == handles[o] <==> HasExecutionData(g, o.layer)
    {
      assert g.info[l].WellShaped() && g.IsIn(InSlot(l, 0)) && g.SourceOK(InSlot(l, 0));
      FoundExactly(g, handles, a, g.source[InSlot(l, 0)]);
    }
  }

  /** The places of an Output that is alone on its slot hold the handle of that slot, which must be the one found. */
  lemma {:induction false} AloneTied(g: Net, handles: map<OutSlot, Handle>, a: Collected, t: Tables, l: LayerId)
    requires Walkable(g, handles) && HandlesDiffer(handles) && CollectedOK(g, handles, a, |g.layers|) && AllTabled(g, a, t)
    requires l in g.info && g.info[l].kind.Output? && InSlot(l, 0) in g.source && t.Tied(a.inputs)
    requires |BindingsOf(g, ReadersOf(g, g.source[InSlot(l, 0)], |g.layers|, 0))| == 1
    ensures HasExecutionData(g, g.source[InSlot(l, 0)].layer)
  {
    var i := InSlot(l, 0);
    var o := g.source[i];
    assert g.SourceOK(i) && OutputTabled(g, a, t, l);
    PlaceRecorded(g, i);
    assert CoordOf(g, i) in t.connections[g.info[l].bindingId];
    assert i.layer in g.layers && CellOK(g, handles, a.inputs, |g.layers|, 0, i);
    FoundExactly(g, handles, a, o);
  }

  /** The place of an Output is among the recorded ones of the slot it reads. */
  lemma {:induction false} PlaceRecorded(g: Net, i: InSlot)
    requires g.Valid() && i in g.source && i.layer in g.info && g.info[i.layer].kind.Output?
    ensures CoordOf(g, i) in CoordsOf(g, Recorded(g, g.source[i], ReadersOf(g, g.source[i], |g.layers|, 0)))
  {
    var o := g.source[i];
    var s := ReadersOf(g, o, |g.layers|, 0);
    AllReaders(g, o, i);
    RecordedOutput(g, o, s, i);
    assert CoordsOf(g, Recorded(g, o, s))[IndexOf(Recorded(g, o, s), i)] == CoordOf(g, i);
  }

  lemma {:induction false} RecordedOutput(g: Net, o: OutSlot, s: seq<InSlot>, i: InSlot)
    requires i in s && i.layer in g.info && g.info[i.layer].kind.Output?
    ensures i in Recorded(g, o, s)
  {
    OutputListed(g, s, i);
  }

  lemma {:induction false} OutputListed(g: Net, s: seq<InSlot>, i: InSlot)
    requires i in s && i.layer in g.info && g.info[i.layer].kind.Output?
    ensures i in OutputsIn(g, s)
  {
    if s[|s| - 1] != i {
      OutputListed(g, s[..|s| - 1], i);
    }
  }

  lemma {:induction false} OutputsAreListed(g: Net, s: seq<InSlot>, i: InSlot)
    requires i in OutputsIn(g, s)
    ensures i in s
  {
    var t := s[..|s| - 1];
    if i in OutputsIn(g, t) {
      OutputsAreListed(g, t, i);
    }
  }

  /** The recorded places of a slot's readers hold its handle. */
  lemma {:induction false} RecordedHold(g: Net, handles: map<OutSlot, Handle>, cells: map<Coord, Handle>, o: OutSlot)
    requires g.Valid() && o in handles && CellsOK(g, handles, cells, |g.layers|, 0)
    ensures forall c :: c in CoordsOf(g, Recorded(g, o, ReadersOf(g, o, |g.layers|, 0))) ==> c in cells && cells[c] == handles[o]
  {
    var s := ReadersOf(g, o, |g.layers|, 0);
    var r := Recorded(g, o, s);
    CoordsHold(g, handles, cells, o);
    forall c | c in CoordsOf(g, r)
      ensures c in cells && cells[c] == handles[o]
    {
      var n := IndexOf(CoordsOf(g, r), c);
      assert r[n] in r && c == CoordOf(g, r[n]);
      if r != s {
        OutputsAreListed(g, s, r[n]);
      }
      assert CoordsOf(g, s)[IndexOf(s, r[n])] == c;
    }
  }

  /** The Output l is the only one that reads its slot. */
  ghost predicate IsAlone(g: Net, l: LayerId) {
    l in g.info && g.info[l].kind.Output? && InSlot(l, 0) in g.source
    && forall m :: m in g.info && g.info[m].kind.Output? && InSlot(m, 0) in g.source && g.source[InSlot(m, 0)] == g.source[InSlot(l, 0)] ==> m == l
  }

  lemma {:induction false} OutputsInDiffer(g: Net, s: seq<InSlot>)
    requires NoDup(s)
    ensures NoDup(OutputsIn(g, s)) && |OutputsIn(g, s)| == |BindingsOf(g, s)|
    ensures forall i :: i in OutputsIn(g, s) <==> i in s && i.layer in g.info && g.info[i.layer].kind.Output?
  {
    if s != [] {
      var t, x := s[..|s| - 1], s[|s| - 1];
      PrefixNoDup(s);
      OutputsInDiffer(g, t);
      assert forall i :: i in s <==> i in t || i == x;
      AppendMembers(OutputsIn(g, t), x);
    }
  }

  /** Then a single binding is collected for the slot, and otherwise not. */
  lemma {:induction false} AloneExactly(g: Net, l: LayerId)
    requires g.Valid() && l in g.info && g.info[l].kind.Output? && InSlot(l, 0) in g.source
    ensures IsAlone(g, l) <==> |BindingsOf(g, ReadersOf(g, g.source[InSlot(l, 0)], |g.layers|, 0))| == 1
  {
    var o := g.source[InSlot(l, 0)];
    var s := ReadersOf(g, o, |g.layers|, 0);
    ReadersDiffer(g, o, |g.layers|, 0);
    OutputsInDiffer(g, s);
    forall i
      ensures i in OutputsIn(g, s) <==> i == InSlot(i.layer, 0) && i in g.source && g.source[i] == o && i.layer in g.info && g.info[i.layer].kind.Output?
    {
      AllReaders(g, o, i);
      assert g.SourceOK(i) && (i.layer in g.info ==> g.info[i.layer].WellShaped());
    }
    AloneInList(g, o, OutputsIn(g, s), l);
  }

  lemma {:induction false} AloneInList(g: Net, o: OutSlot, r: seq<InSlot>, l: LayerId)
    requires NoDup(r) && l in g.info && g.info[l].kind.Output? && InSlot(l, 0) in g.source && g.source[InSlot(l, 0)] == o
    requires forall i :: i in r <==>
      i == InSlot(i.layer, 0) && i in g.source && g.source[i] == o && i.layer in g.info && g.info[i.layer].kind.Output?
    ensures IsAlone(g, l) <==> |r| == 1
  {
    assert InSlot(l, 0) in r;
    if IsAlone(g, l) && |r| > 1 {
      assert r[0] in r && r[1] in r;
      NoDupDistinct(r, 0, 1);
    }
    if |r| == 1 {
      assert forall i :: i in r ==> i == r[0];
      assert forall m :: m in g.info && g.info[m].kind.Output? && InSlot(m, 0) in g.source && g.source[InSlot(m, 0)] == o ==> InSlot(m, 0) in r;
    }
  }

  lemma {:induction false} BindingTied(g: Net, handles: map<OutSlot, Handle>, a: Collected, t: Tables, b: int)
    requires Walkable(g, handles) && HandlesDiffer(handles) && CollectedOK(g, handles, a, |g.layers|) && AllTabled(g, a, t)
    requires (forall l :: IsAlone(g, l) ==> AloneFed(g, l)) && b in t.connections
    ensures forall c :: c in t.connections[b] ==> c in a.inputs && b in t.handles && a.inputs[c] == t.handles[b]
  {
    var l :| OutputOf(g, l, b);
    assert OutputTabled(g, a, t, l) && g.SourceOK(InSlot(l, 0));
    AloneExactly(g, l);
    var o := g.source[InSlot(l, 0)];
    RecordedHold(g, handles, a.inputs, o);
    FoundExactly(g, handles, a, o);
  }

  /** Swapping imported handles in and out of the outputs' places gives back what was there if and only if every Output
      that is alone on its slot reads a layer with a descriptor. */
  lemma {:induction false} TiedExactly(g: Net, handles: map<OutSlot, Handle>, a: Collected, t: Tables)
    requires Walkable(g, handles) && HandlesDiffer(handles) && CollectedOK(g, handles, a, |g.layers|) && AllTabled(g, a, t)
    ensures t.Tied(a.inputs) <==> forall l :: IsAlone(g, l) ==> AloneFed(g, l)
  {
    if t.Tied(a.inputs) {
      forall l | IsAlone(g, l)
        ensures AloneFed(g, l)
      {
        AloneExactly(g, l);
        AloneTied(g, handles, a, t, l);
      }
    }
    if forall l :: IsAlone(g, l) ==> AloneFed(g, l) {
      forall b | b in t.connections
        ensures forall c :: c in t.connections[b] ==> c in a.inputs && b in t.handles && a.inputs[c] == t.handles[b]
      {
        BindingTied(g, handles, a, t, b);
      }
    }
  }

  ghost predicate AloneFed(g: Net, l: LayerId) {
    InSlot(l, 0) in g.source && HasExecutionData(g, g.source[InSlot(l, 0)].layer)
  }

  /** What is found for the slot of an Input: the first output of the next layer with a descriptor, if it has one. */
  lemma {:induction false} FoundForInput(g: Net, handles: map<OutSlot, Handle>, a: Collected, l: LayerId, m: LayerId)
    requires Walkable(g, handles) && CollectedOK(g, handles, a, |g.layers|)
    requires l in g.info && g.info[l].kind.Input? && HasExecutionData(g, m) && Pos(g, l) < Pos(g, m)
    requires forall k :: Pos(g, l) < k < Pos(g, m) && k < |g.layers| ==> !HasExecutionData(g, g.layers[k])
    ensures FoundAt(g, OutSlot(l, 0)) in a.outputs <==> g.info[m].numOut > 0
    ensures g.info[m].numOut > 0 ==> OutSlot(m, 0) in handles && a.outputs[FoundAt(g, OutSlot(l, 0))] == handles[OutSlot(m, 0)]
  {
    InputSharesCoord(g, l, m);
    FoundNext(g, handles, a, m, FoundAt(g, OutSlot(l, 0)));
  }

  /** What is found for a Constant: the first output of the first layer with a descriptor, if it has one. */
  lemma {:induction false} FoundForConstant(g: Net, handles: map<OutSlot, Handle>, a: Collected, o: OutSlot, m: LayerId)
    requires Walkable(g, handles) && CollectedOK(g, handles, a, |g.layers|)
    requires g.IsOut(o) && g.info[o.layer].kind.Constant? && HasExecutionData(g, m)
    requires forall k :: 0 <= k < Pos(g, m) && k < |g.layers| ==> !HasExecutionData(g, g.layers[k])
    ensures FoundAt(g, o) in a.outputs <==> g.info[m].numOut > 0
    ensures g.info[m].numOut > 0 ==> OutSlot(m, 0) in handles && a.outputs[FoundAt(g, o)] == handles[OutSlot(m, 0)]
  {
    assert m in g.layers;
    SameDescriptor(g, 0, Pos(g, m));
    assert g.layers[..0] == [];
    FoundNext(g, handles, a, m, FoundAt(g, o));
  }

  lemma {:induction false} FoundNext(g: Net, handles: map<OutSlot, Handle>, a: Collected, m: LayerId, x: Coord)
    requires Walkable(g, handles) && CollectedOK(g, handles, a, |g.layers|) && HasExecutionData(g, m) && x == OutCoordOf(g, OutSlot(m, 0))
    ensures x in a.outputs <==> g.info[m].numOut > 0
    ensures g.info[m].numOut > 0 ==> OutSlot(m, 0) in handles && a.outputs[x] == handles[OutSlot(m, 0)]
  {
    assert m in g.layers;
    var o := OutSlot(m, 0);
    if g.info[m].numOut > 0 {
      assert g.IsOut(o) && OutputOK(g, handles, a.outputs, |g.layers|, 0, o) && Tracked(g, o, |g.layers|, 0);
    } else if x in a.outputs {
      assert ComesFrom(g, handles, a.outputs[x], x);
      var p :| g.IsOut(p) && HasExecutionData(g, p.layer) && OutCoordOf(g, p) == x && p in handles && a.outputs[x] == handles[p];
      OutCoordsDiffer(g, p, o);
    }
  }

  /** An Input (0) read by a layer (1) and by an Output (2); another Output (3) reads the layer. */
  function Forked(): Net {
    Net([0, 1, 2, 3],
        map[0 := LayerInfo(Input, 0, 1, 0, ""), 1 := LayerInfo(Operator(0), 1, 1, 0, ""),
            2 := LayerInfo(Output, 1, 0, 0, ""), 3 := LayerInfo(Output, 1, 0, 1, "")],
        map[InSlot(1, 0) := OutSlot(0, 0), InSlot(2, 0) := OutSlot(0, 0), InSlot(3, 0) := OutSlot(1, 0)],
        map[OutSlot(0, 0) := [InSlot(1, 0), InSlot(2, 0)], OutSlot(1, 0) := [InSlot(3, 0)]],
        map[OutSlot(0, 0) := [Undefined, Undefined], OutSlot(1, 0) := [Undefined]],
        map[])
  }

  lemma {:induction false} ForkedIsListed()
    ensures Forked().Listed()
    ensures forall k: nat :: k < 4 ==> Pos(Forked(), k) == k
  {
    FromZero(Forked().layers);
    ForkedIsShaped();
  }

  lemma {:induction false} ForkedIsShaped()
    ensures forall l :: l in Forked().info ==> Forked().info[l].WellShaped()
  {
    forall l | l in Forked().info
      ensures Forked().info[l].WellShaped()
    {
      assert l == 0 || l == 1 || l == 2 || l == 3;
    }
  }

  lemma {:induction false} ForkedIsLinked()
    ensures Forked().Linked()
  {
    var g := Forked();
    forall i
      ensures g.SourceOK(i)
    {
      assert i in g.source ==> i == InSlot(1, 0) || i == InSlot(2, 0) || i == InSlot(3, 0);
    }
    forall o
      ensures g.SinksOK(o)
    {
      NoDupIntro(g.Sinks(o));
    }
  }

  lemma {:induction false} ForkedIsSorted()
    ensures Forked().Valid() && Sorted(Forked())
  {
    var g := Forked();
    ForkedIsListed();
    ForkedIsLinked();
    ForkedIsPartitioned();
    ForkedIsForward();
  }

  lemma {:induction false} ForkedIsPartitioned()
    ensures Partitioned(Forked())
  {
    assert Ranks(Forked()) == [0, 1, 2, 2];
  }

  lemma {:induction false} ForkedIsForward()
    ensures Forward(Forked())
  {
    var g := Forked();
    ForkedIsListed();
    forall i | i in g.source
      ensures Pos(g, g.source[i].layer) < Pos(g, i.layer)
    {
      assert i == InSlot(1, 0) || i == InSlot(2, 0) || i == InSlot(3, 0);
    }
  }

  /** Output 2, which reads the Input, is tabled with the handle of what layer 1 puts out. */
  lemma {:induction false} ForkedTabledWrong(g: Net, handles: map<OutSlot, Handle>, a: Collected, t: Tables)
    requires g == Forked() && Walkable(g, handles) && CollectedOK(g, handles, a, |g.layers|) && AllTabled(g, a, t)
    ensures 0 in t.handles && OutSlot(1, 0) in handles && t.handles[0] == handles[OutSlot(1, 0)]
  {
    ForkedIsListed();
    FoundForInput(g, handles, a, 0, 1);
    assert OutputTabled(g, a, t, 2);
  }

  /** The graph meets everything else that is asked of a network. */
  lemma {:induction false} ForkedIsAccepted()
    ensures (forall i :: Forked().IsIn(i) ==> i in Forked().source) && NoImports(Forked()) && ReadInputs.InputsRead(Forked())
    ensures LoadedNetwork.BindingsDiffer(Forked(), 0) && LoadedNetwork.BindingsDiffer(Forked(), 2)
    ensures !OutputsFed(Forked())
  {
    ForkedIsConnected();
    ForkedIsBound();
    assert InSlot(2, 0) in Forked().source && !HasExecutionData(Forked(), Forked().source[InSlot(2, 0)].layer);
  }

  lemma {:induction false} ForkedIsConnected()
    ensures forall i :: Forked().IsIn(i) ==> i in Forked().source
    ensures ReadInputs.InputsRead(Forked())
  {
    var g := Forked();
    forall i | g.IsIn(i)
      ensures i in g.source
    {
      assert i.layer == 1 || i.layer == 2 || i.layer == 3;
    }
    assert g.source[InSlot(1, 0)].layer == 0;
    assert ReadInputs.HasReader(g, 0);
  }

  lemma {:induction false} ForkedIsBound()
    ensures NoImports(Forked()) && LoadedNetwork.BindingsDiffer(Forked(), 0) && LoadedNetwork.BindingsDiffer(Forked(), 2)
  {
    assert forall l :: l in Forked().info ==> l == 0 || l == 1 || l == 2 || l == 3;
  }
}
