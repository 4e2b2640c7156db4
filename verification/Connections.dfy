/**
  The places in a working memory where the tensor handle of an input or output of the network is read. They are
  collected, as coordinates of descriptors and their input slots, while the layers are visited.
 */
module Connections {
  import opened Sequences
  import opened NetGraph
  import opened Ordering
  import opened WorkingMemHandle

  /** A tensor handle: the one made for an output slot, or one made for an imported tensor. */
  datatype Handle = Own(slot: OutSlot) | Imported(number: nat)

  /** An input slot of a working memory descriptor, by the descriptor's index. */
  datatype Coord = Coord(descriptor: nat, slot: nat)

  /** The index of the descriptor of a layer, or of the next layer that has one. */
  ghost function Descriptor(g: Net, l: LayerId): nat {
    |ExecutionDataOf(g, g.layers[..Pos(g, l)])|
  }

  ghost function CoordOf(g: Net, i: InSlot): Coord {
    Coord(Descriptor(g, i.layer), i.index)
  }

  ghost function CoordsOf(g: Net, s: seq<InSlot>): (r: seq<Coord>)
    ensures |r| == |s|
    ensures forall k {:trigger r[k]} :: 0 <= k < |s| ==> r[k] == CoordOf(g, s[k])
  {
    seq(|s|, k requires 0 <= k < |s| => CoordOf(g, s[k]))
  }

  /** The walk visits input slot i among the first k layers, or the first c input slots of the next. */
  ghost predicate Visited(g: Net, i: InSlot, k: nat, c: nat) {
    Pos(g, i.layer) < k || (Pos(g, i.layer) == k && i.index < c)
  }

  /** The readers of o in the order in which they are visited. */
  ghost function ReadersOf(g: Net, o: OutSlot, k: nat, c: nat): seq<InSlot> {
    if k >= |g.layers| && c > 0 then []
    else if c > 0 then
      var i := InSlot(g.layers[k], c - 1);
      ReadersOf(g, o, k, c - 1) + if i in g.source && g.source[i] == o then [i] else []
    else if k > 0 && k <= |g.layers| && g.layers[k - 1] in g.info then ReadersOf(g, o, k - 1, g.info[g.layers[k - 1]].numIn)
    else []
  }

  lemma {:induction false} ReadersMembers(g: Net, o: OutSlot, k: nat, c: nat)
    requires g.Valid() && k <= |g.layers| && (c > 0 ==> k < |g.layers|)
    ensures forall i :: i in ReadersOf(g, o, k, c) <==> i in g.source && g.source[i] == o && Visited(g, i, k, c)
    decreases k, c
  {
    if c > 0 {
      ReadersMembers(g, o, k, c - 1);
      forall i
        ensures i in ReadersOf(g, o, k, c) <==> i in g.source && g.source[i] == o && Visited(g, i, k, c)
      {
        NextVisited(g, i, k, c);
      }
    } else if k > 0 {
      var l := g.layers[k - 1];
      assert l in g.layers;
      ReadersMembers(g, o, k - 1, g.info[l].numIn);
      forall i | i in g.source
        ensures Visited(g, i, k - 1, g.info[l].numIn) <==> Visited(g, i, k, 0)
      {
        assert g.SourceOK(i) && i.layer in g.layers;
      }
    }
  }

  lemma {:induction false} NextVisited(g: Net, i: InSlot, k: nat, c: nat)
    requires g.Valid() && k < |g.layers| && c > 0
    ensures i in g.source ==> (Visited(g, i, k, c) <==> Visited(g, i, k, c - 1) || i == InSlot(g.layers[k], c - 1))
  {
    IndexOfUnique(g.layers, k);
    assert g.SourceOK(i) && (i in g.source ==> i.layer in g.layers);
  }

  lemma {:induction false} NotYet(g: Net, o: OutSlot, k: nat, b: nat)
    requires g.Valid() && k < |g.layers|
    ensures InSlot(g.layers[k], b) !in ReadersOf(g, o, k, b)
  {
    ReadersMembers(g, o, k, b);
    IndexOfUnique(g.layers, k);
  }

  lemma {:induction false} OneMore(s: seq<InSlot>, i: InSlot, t: seq<InSlot>)
    requires NoDup(s) && i !in s && (t == s || t == s + [i])
    ensures NoDup(t)
  {
    AppendMembers(s, i);
  }

  lemma {:induction false} ReadersDiffer(g: Net, o: OutSlot, k: nat, c: nat)
    requires g.Valid() && k <= |g.layers| && (c > 0 ==> k < |g.layers|)
    ensures NoDup(ReadersOf(g, o, k, c))
    decreases k, c
  {
    if c > 0 {
      var b: nat := c - 1;
      ReadersDiffer(g, o, k, b);
      NotYet(g, o, k, b);
      OneMore(ReadersOf(g, o, k, b), InSlot(g.layers[k], b), ReadersOf(g, o, k, c));
    } else if k > 0 {
      assert g.layers[k - 1] in g.layers;
      ReadersDiffer(g, o, k - 1, g.info[g.layers[k - 1]].numIn);
    } else {
      NoDupIntro<InSlot>([]);
    }
  }

  /** When the whole list has been visited, the readers are all there. */
  lemma {:induction false} AllReaders(g: Net, o: OutSlot, i: InSlot)
    requires g.Valid()
    ensures i in ReadersOf(g, o, |g.layers|, 0) <==> i in g.source && g.source[i] == o
  {
    ReadersMembers(g, o, |g.layers|, 0);
    assert g.SourceOK(i);
    assert i in g.source ==> i.layer in g.layers;
  }

  /** The binding ids of the Outputs among the readers. */
  function BindingsOf(g: Net, s: seq<InSlot>): seq<int> {
    if s == [] then []
    else
      var l := s[|s| - 1].layer;
      BindingsOf(g, s[..|s| - 1]) + if l in g.info && g.info[l].kind.Output? then [g.info[l].bindingId] else []
  }

  /** The Outputs among the readers. */
  ghost function OutputsIn(g: Net, s: seq<InSlot>): seq<InSlot> {
    if s == [] then []
    else
      var i := s[|s| - 1];
      OutputsIn(g, s[..|s| - 1]) + if i.layer in g.info && g.info[i.layer].kind.Output? then [i] else []
  }

  /** What is collected about the handle of one output slot. */
  datatype HandleInfo = HandleInfo(isInput: bool, isOutput: bool, at: Coord, inputCoords: seq<Coord>, bindings: seq<int>, outputCoords: seq<Coord>)

  /** Where the slot's handle is among the outputs of the descriptors. */
  ghost function OutCoordOf(g: Net, o: OutSlot): Coord {
    Coord(Descriptor(g, o.layer), o.index)
  }

  /** Slot o, or an earlier one of its layer, leads to an Output. */
  ghost predicate Flagged(g: Net, o: OutSlot) {
    LeadsToOutput(g, o.layer, o.index + 1)
  }

  /** One of the first j slots of l leads to an Output. */
  ghost predicate LeadsToOutput(g: Net, l: LayerId, j: nat) {
    exists i :: i in g.source && g.source[i].layer == l && g.source[i].index < j && i.layer in g.info && g.info[i.layer].kind.Output?
  }

  /** The readers whose places are noted: of a Constant only the Outputs. */
  ghost function Recorded(g: Net, o: OutSlot, s: seq<InSlot>): seq<InSlot> {
    if o.layer in g.info && g.info[o.layer].kind.Constant? then OutputsIn(g, s) else s
  }

  /** Where the handle of o is looked for among the outputs of the descriptors. The place of a Constant's slot is never set. */
  ghost function FoundAt(g: Net, o: OutSlot): Coord {
    if o.layer in g.info && g.info[o.layer].kind.Constant? then Coord(0, 0) else OutCoordOf(g, o)
  }

  /** The coordinates of the readers visited so far, if the slot is an Input's, and again if it is flagged; and the binding
      ids of the Outputs among them. */
  ghost predicate InfoOK(g: Net, e: HandleInfo, o: OutSlot, s: seq<InSlot>) {
    && e.isInput == (o.layer in g.info && g.info[o.layer].kind.Input?) && e.isOutput == Flagged(g, o) && e.at == FoundAt(g, o)
    && e.inputCoords == (if e.isInput then CoordsOf(g, s) else [])
    && e.outputCoords == (if e.isOutput then CoordsOf(g, Recorded(g, o, s)) else [])
    && e.bindings == BindingsOf(g, s)
  }

  /** Slots of the first k layers, Constants aside, and the first j slots of the next. */
  ghost predicate Tracked(g: Net, o: OutSlot, k: nat, j: nat) {
    g.IsOut(o) && !g.info[o.layer].kind.Constant? && (Pos(g, o.layer) < k || (Pos(g, o.layer) == k && o.index < j))
  }

  /** An info exists for every slot that has been visited, and for a Constant's slot once an Output that reads it has been. */
  ghost predicate InfoAt(g: Net, infos: map<OutSlot, HandleInfo>, o: OutSlot, k: nat, j: nat, s: seq<InSlot>) {
    && (Tracked(g, o, k, j) ==> o in infos && InfoOK(g, infos[o], o, s))
    && (g.IsOut(o) && g.info[o.layer].kind.Constant? ==>
          if BindingsOf(g, s) == [] then o !in infos else o in infos && InfoOK(g, infos[o], o, s))
  }

  ghost predicate InfosOK(g: Net, infos: map<OutSlot, HandleInfo>, k: nat, j: nat, c: nat) {
    forall o :: InfoAt(g, infos, o, k, j, ReadersOf(g, o, k, c))
  }

  /** The descriptors' input slots visited so far hold the handles of the slots they read. */
  ghost predicate CellsOK(g: Net, handles: map<OutSlot, Handle>, cells: map<Coord, Handle>, k: nat, c: nat) {
    forall i :: CellOK(g, handles, cells, k, c, i)
  }

  ghost predicate CellOK(g: Net, handles: map<OutSlot, Handle>, cells: map<Coord, Handle>, k: nat, c: nat, i: InSlot) {
    (i in g.source && g.source[i] in handles && Visited(g, i, k, c)) ==>
      CoordOf(g, i) in cells && cells[CoordOf(g, i)] == handles[g.source[i]]
  }

  lemma {:induction false} CoordsNext(g: Net, s: seq<InSlot>, i: InSlot)
    ensures CoordsOf(g, s + [i]) == CoordsOf(g, s) + [CoordOf(g, i)]
    ensures BindingsOf(g, s + [i]) ==
      BindingsOf(g, s) + if i.layer in g.info && g.info[i.layer].kind.Output? then [g.info[i.layer].bindingId] else []
  {
    assert (s + [i])[..|s|] == s;
  }

  /** The walk counts the descriptors. */
  lemma {:induction false} DescriptorAt(g: Net, k: nat)
    requires g.Listed() && k < |g.layers|
    ensures Descriptor(g, g.layers[k]) == |ExecutionDataOf(g, g.layers[..k])|
    ensures |ExecutionDataOf(g, g.layers[..k + 1])| ==
      |ExecutionDataOf(g, g.layers[..k])| + if HasExecutionData(g, g.layers[k]) then 1 else 0
  {
    IndexOfUnique(g.layers, k);
    assert g.layers[..k + 1] == g.layers[..k] + [g.layers[k]];
    ExecutionDataNext(g, g.layers[..k], g.layers[k]);
  }

  lemma {:induction false} DescriptorsGrow(g: Net, j: nat, k: nat)
    requires j <= k <= |g.layers|
    ensures |ExecutionDataOf(g, g.layers[..j])| <= |ExecutionDataOf(g, g.layers[..k])|
  {
    if j < k {
      DescriptorsGrow(g, j, k - 1);
      assert g.layers[..k] == g.layers[..k - 1] + [g.layers[k - 1]];
      ExecutionDataNext(g, g.layers[..k - 1], g.layers[k - 1]);
    }
  }

  /** Layers with execution data have different descriptors. */
  lemma {:induction false} DescriptorsAscend(g: Net, a: LayerId, b: LayerId)
    requires g.Listed() && a in g.info && b in g.info && HasExecutionData(g, a) && Pos(g, a) < Pos(g, b)
    ensures Descriptor(g, a) < Descriptor(g, b)
  {
    var k := Pos(g, a);
    assert a in g.layers && b in g.layers && g.layers[k] == a;
    DescriptorAt(g, k);
    DescriptorsGrow(g, k + 1, Pos(g, b));
  }

  /** No layer is a MemImport layer. */
  ghost predicate NoImports(g: Net) {
    forall l :: l in g.info ==> !g.info[l].kind.MemImport?
  }

  /** Every layer that reads something has a descriptor of its own. */
  lemma {:induction false} CoordsDiffer(g: Net, i: InSlot, j: InSlot)
    requires g.Valid() && NoImports(g) && i in g.source && j in g.source && CoordOf(g, i) == CoordOf(g, j)
    ensures i == j
  {
    assert g.SourceOK(i) && g.SourceOK(j) && i.layer in g.layers && j.layer in g.layers;
    assert HasExecutionData(g, i.layer) && HasExecutionData(g, j.layer);
    if Pos(g, i.layer) < Pos(g, j.layer) {
      DescriptorsAscend(g, i.layer, j.layer);
    } else if Pos(g, j.layer) < Pos(g, i.layer) {
      DescriptorsAscend(g, j.layer, i.layer);
    }
  }

  /** An Output among the readers of o flags o. */
  lemma {:induction false} OutputFlags(g: Net, i: InSlot)
    requires g.Valid() && i in g.source && i.layer in g.info && g.info[i.layer].kind.Output?
    ensures Flagged(g, g.source[i])
  {
  }

  /** Whether an Output is among the readers of a slot. */
  method OutputAmong(g: Net, s: seq<InSlot>) returns (found: bool)
    requires forall i :: i in s ==> i.layer in g.info
    ensures found <==> exists i :: i in s && g.info[i.layer].kind.Output?
  {
    found := false;
    var n := 0;
    while n < |s|
      invariant n <= |s| && (found <==> exists i :: i in s[..n] && g.info[i.layer].kind.Output?)
    {
      assert s[n] in s && s[..n + 1] == s[..n] + [s[n]];
      found := found || g.info[s[n].layer].kind.Output?;
      n := n + 1;
    }
    assert s[..n] == s;
  }

  lemma {:induction false} LeadsNext(g: Net, l: LayerId, j: nat, next: nat, found: bool)
    requires g.Valid() && next == j + 1
    requires found <==> exists i :: i in g.Sinks(OutSlot(l, j)) && i.layer in g.info && g.info[i.layer].kind.Output?
    ensures LeadsToOutput(g, l, next) <==> LeadsToOutput(g, l, j) || found
  {
    var o := OutSlot(l, j);
    assert g.SinksOK(o);
    forall i | i in g.source && g.source[i] == o
      ensures i in g.Sinks(o)
    {
      assert g.SourceOK(i);
    }
    if LeadsToOutput(g, l, next) && !LeadsToOutput(g, l, j) {
      var i :| i in g.source && g.source[i].layer == l && g.source[i].index < next && i.layer in g.info && g.info[i.layer].kind.Output?;
      assert g.source[i] == o;
    }
  }

  /** Nobody who reads the layer at position k, or a later one, has been visited. */
  lemma {:induction false} NoReadersYet(g: Net, o: OutSlot, k: nat)
    requires g.Valid() && Forward(g) && k < |g.layers| && o.layer == g.layers[k]
    ensures ReadersOf(g, o, k, 0) == []
  {
    ReadersMembers(g, o, k, 0);
    IndexOfUnique(g.layers, k);
    if ReadersOf(g, o, k, 0) != [] {
      HasMember(ReadersOf(g, o, k, 0));
    }
  }

  /** The handle infos of the slots of the layer at position k; d descriptors come before it. */
  method EnterSlots(g: Net, infos: map<OutSlot, HandleInfo>, k: nat, d: nat) returns (infos': map<OutSlot, HandleInfo>)
    requires g.Valid() && Forward(g) && k < |g.layers| && g.layers[k] in g.info && !g.info[g.layers[k]].kind.Constant?
    requires InfosOK(g, infos, k, 0, 0) && d == Descriptor(g, g.layers[k])
    ensures InfosOK(g, infos', k, g.info[g.layers[k]].numOut, 0)
  {
    infos' := infos;
    var l := g.layers[k];
    IndexOfUnique(g.layers, k);
    var j, toOutput := 0, false;
    while j < g.info[l].numOut
      invariant j <= g.info[l].numOut && InfosOK(g, infos', k, j, 0) && (toOutput <==> LeadsToOutput(g, l, j))
    {
      var o, next := OutSlot(l, j), j + 1;
      ReadersListed(g, o);
      var found := OutputAmong(g, g.Sinks(o));
      LeadsNext(g, l, j, next, found);
      toOutput := toOutput || found;
      NoReadersYet(g, o, k);
      var e := HandleInfo(g.info[l].kind.Input?, toOutput, Coord(d, j), [], [], []);
      assert InfoOK(g, e, o, []);
      SlotEntered(g, infos', k, j, o, e);
      infos' := infos'[o := e];
      j := next;
    }
  }

  /** The outputs of the descriptors made so far hold the handles of their slots. */
  ghost predicate OutputsOK(g: Net, handles: map<OutSlot, Handle>, outputs: map<Coord, Handle>, k: nat, j: nat) {
    && (forall o :: OutputOK(g, handles, outputs, k, j, o))
    && (forall x :: x in outputs ==> ComesFrom(g, handles, outputs[x], x))
  }

  /** The handle h, at x, is that of the slot of a layer with a descriptor. */
  ghost predicate ComesFrom(g: Net, handles: map<OutSlot, Handle>, h: Handle, x: Coord) {
    exists o :: g.IsOut(o) && HasExecutionData(g, o.layer) && OutCoordOf(g, o) == x && o in handles && h == handles[o]
  }

  ghost predicate OutputOK(g: Net, handles: map<OutSlot, Handle>, outputs: map<Coord, Handle>, k: nat, j: nat, o: OutSlot) {
    (o in handles && Tracked(g, o, k, j) && HasExecutionData(g, o.layer)) ==>
      OutCoordOf(g, o) in outputs && outputs[OutCoordOf(g, o)] == handles[o]
  }

  lemma {:induction false} OutCoordsDiffer(g: Net, o: OutSlot, p: OutSlot)
    requires g.Listed() && HasExecutionData(g, o.layer) && HasExecutionData(g, p.layer) && OutCoordOf(g, o) == OutCoordOf(g, p)
    ensures o == p
  {
    assert o.layer in g.layers && p.layer in g.layers;
    if Pos(g, o.layer) < Pos(g, p.layer) {
      DescriptorsAscend(g, o.layer, p.layer);
    } else if Pos(g, p.layer) < Pos(g, o.layer) {
      DescriptorsAscend(g, p.layer, o.layer);
    }
  }

  lemma {:induction false} OutputFilled(g: Net, handles: map<OutSlot, Handle>, outputs: map<Coord, Handle>, k: nat, j: nat, o: OutSlot, d: nat)
    requires g.Listed() && k < |g.layers| && o == OutSlot(g.layers[k], j) && HasExecutionData(g, o.layer) && d == Descriptor(g, o.layer)
    requires OutputsOK(g, handles, outputs, k, j) && o in handles && g.IsOut(o)
    ensures OutputsOK(g, handles, outputs[Coord(d, j) := handles[o]], k, j + 1)
  {
    IndexOfUnique(g.layers, k);
    var outputs', j' := outputs[Coord(d, j) := handles[o]], j + 1;
    assert ComesFrom(g, handles, handles[o], Coord(d, j));
    forall p
      ensures OutputOK(g, handles, outputs', k, j', p)
    {
      assert OutputOK(g, handles, outputs, k, j, p);
      if HasExecutionData(g, p.layer) {
        assert p.layer in g.layers;
        if OutCoordOf(g, p) == OutCoordOf(g, o) {
          OutCoordsDiffer(g, p, o);
        }
      }
    }
  }

  /** The outputs of the descriptor of the layer at position k. */
  method FillOutputs(g: Net, handles: map<OutSlot, Handle>, outputs: map<Coord, Handle>, k: nat, d: nat) returns (outputs': map<Coord, Handle>)
    requires g.Listed() && k < |g.layers| && HasExecutionData(g, g.layers[k]) && d == Descriptor(g, g.layers[k])
    requires OutputsOK(g, handles, outputs, k, 0) && forall o :: g.IsOut(o) ==> o in handles
    ensures OutputsOK(g, handles, outputs', k, g.info[g.layers[k]].numOut)
  {
    outputs' := outputs;
    var j := 0;
    while j < g.info[g.layers[k]].numOut
      invariant j <= g.info[g.layers[k]].numOut && OutputsOK(g, handles, outputs', k, j)
    {
      var o := OutSlot(g.layers[k], j);
      assert g.IsOut(o);
      OutputFilled(g, handles, outputs', k, j, o, d);
      outputs' := outputs'[Coord(d, j) := handles[o]];
      j := j + 1;
    }
  }

  lemma {:induction false} OutputsNext(g: Net, handles: map<OutSlot, Handle>, outputs: map<Coord, Handle>, k: nat, k': nat, j: nat)
    requires g.Listed() && k < |g.layers| && k' == k + 1 && g.layers[k] in g.info && OutputsOK(g, handles, outputs, k, j)
    requires j == g.info[g.layers[k]].numOut || !HasExecutionData(g, g.layers[k])
    ensures OutputsOK(g, handles, outputs, k', 0)
  {
    IndexOfUnique(g.layers, k);
    forall o
      ensures OutputOK(g, handles, outputs, k', 0, o)
    {
      assert OutputOK(g, handles, outputs, k, j, o);
      assert o.layer in g.info ==> o.layer in g.layers;
    }
  }

  /** The slot of an Input has the coordinates of the first slot of the next layer with a descriptor: an Output that
      reads the Input is taken to have the handle of that slot. */
  lemma {:induction false} InputSharesCoord(g: Net, l: LayerId, m: LayerId)
    requires g.Listed() && l in g.info && g.info[l].kind.Input? && m in g.info && Pos(g, l) < Pos(g, m)
    requires forall k :: Pos(g, l) < k < Pos(g, m) && k < |g.layers| ==> !HasExecutionData(g, g.layers[k])
    ensures OutCoordOf(g, OutSlot(l, 0)) == OutCoordOf(g, OutSlot(m, 0))
  {
    assert l in g.layers && m in g.layers && g.layers[Pos(g, l)] == l;
    SameDescriptor(g, Pos(g, l), Pos(g, m));
  }

  lemma {:induction false} SameDescriptor(g: Net, j: nat, k: nat)
    requires j <= k <= |g.layers| && forall n :: j <= n < k ==> !HasExecutionData(g, g.layers[n])
    ensures |ExecutionDataOf(g, g.layers[..j])| == |ExecutionDataOf(g, g.layers[..k])|
  {
    if j < k {
      SameDescriptor(g, j, k - 1);
      assert g.layers[..k] == g.layers[..k - 1] + [g.layers[k - 1]];
      ExecutionDataNext(g, g.layers[..k - 1], g.layers[k - 1]);
    }
  }

  lemma {:induction false} SlotEntered(g: Net, infos: map<OutSlot, HandleInfo>, k: nat, j: nat, o: OutSlot, e: HandleInfo)
    requires g.Listed() && k < |g.layers| && o == OutSlot(g.layers[k], j) && InfosOK(g, infos, k, j, 0)
    requires InfoOK(g, e, o, ReadersOf(g, o, k, 0)) && o.layer in g.info && !g.info[o.layer].kind.Constant?
    ensures InfosOK(g, infos[o := e], k, j + 1, 0)
  {
    IndexOfUnique(g.layers, k);
    var infos', j' := infos[o := e], j + 1;
    forall p
      ensures InfoAt(g, infos', p, k, j', ReadersOf(g, p, k, 0))
    {
      assert InfoAt(g, infos, p, k, j, ReadersOf(g, p, k, 0));
      assert p.layer in g.info ==> p.layer in g.layers;
      assert p != o && Tracked(g, p, k, j') ==> Tracked(g, p, k, j);
    }
  }

  /** What the visit of reader i, in descriptor d, adds to the info of the slot it reads. */
  method Note(g: Net, e: HandleInfo, i: InSlot, d: nat) returns (e': HandleInfo)
    requires i.layer in g.info
    ensures e' == Noted(g, e, i, d)
  {
    e' := e;
    if g.info[i.layer].kind.Output? {
      e' := e'.(bindings := e'.bindings + [g.info[i.layer].bindingId], outputCoords := e'.outputCoords + [Coord(d, i.index)]);
    } else if e.isOutput {
      e' := e'.(outputCoords := e'.outputCoords + [Coord(d, i.index)]);
    }
    if e.isInput {
      e' := e'.(inputCoords := e'.inputCoords + [Coord(d, i.index)]);
    }
  }

  function Noted(g: Net, e: HandleInfo, i: InSlot, d: nat): HandleInfo {
    var output := i.layer in g.info && g.info[i.layer].kind.Output?;
    e.(bindings := e.bindings + (if output then [g.info[i.layer].bindingId] else []),
       outputCoords := e.outputCoords + (if output || e.isOutput then [Coord(d, i.index)] else []),
       inputCoords := e.inputCoords + (if e.isInput then [Coord(d, i.index)] else []))
  }

  lemma {:induction false} NotedOK(g: Net, e: HandleInfo, s: seq<InSlot>, i: InSlot, d: nat)
    requires g.Valid() && i in g.source && InfoOK(g, e, g.source[i], s) && d == Descriptor(g, i.layer)
    requires g.source[i].layer in g.info && !g.info[g.source[i].layer].kind.Constant?
    ensures InfoOK(g, Noted(g, e, i, d), g.source[i], s + [i])
  {
    var t := s + [i];
    CoordsNext(g, s, i);
    assert Recorded(g, g.source[i], t) == t && CoordsOf(g, t) == CoordsOf(g, s) + [Coord(d, i.index)];
    if i.layer in g.info && g.info[i.layer].kind.Output? {
      OutputFlags(g, i);
    }
  }

  /** The info with which the first Output that reads a Constant starts. */
  function Fresh(): HandleInfo {
    HandleInfo(false, true, Coord(0, 0), [], [], [])
  }

  lemma {:induction false} OutputsInNext(g: Net, s: seq<InSlot>, i: InSlot)
    ensures OutputsIn(g, s + [i]) == OutputsIn(g, s) + if i.layer in g.info && g.info[i.layer].kind.Output? then [i] else []
    ensures |OutputsIn(g, s)| == |BindingsOf(g, s)|
  {
    assert (s + [i])[..|s|] == s;
    OutputsInSize(g, s);
  }

  lemma {:induction false} OutputsInSize(g: Net, s: seq<InSlot>)
    ensures |OutputsIn(g, s)| == |BindingsOf(g, s)|
  {
    if s != [] {
      OutputsInSize(g, s[..|s| - 1]);
    }
  }

  /** An Output that reads a Constant. */
  lemma {:induction false} ConstantNoted(g: Net, e: HandleInfo, s: seq<InSlot>, i: InSlot, d: nat)
    requires g.Valid() && i in g.source && d == Descriptor(g, i.layer) && i.layer in g.info && g.info[i.layer].kind.Output?
    requires g.source[i].layer in g.info && g.info[g.source[i].layer].kind.Constant?
    requires if BindingsOf(g, s) == [] then e == Fresh() else InfoOK(g, e, g.source[i], s)
    ensures InfoOK(g, Noted(g, e, i, d), g.source[i], s + [i]) && BindingsOf(g, s + [i]) != []
  {
    OutputFlags(g, i);
    ConstantRecorded(g, s, i);
  }

  /** What is kept about a Constant grows by this Output. */
  lemma {:induction false} ConstantRecorded(g: Net, s: seq<InSlot>, i: InSlot)
    requires i.layer in g.info && g.info[i.layer].kind.Output?
    ensures BindingsOf(g, s + [i]) == BindingsOf(g, s) + [g.info[i.layer].bindingId]
    ensures CoordsOf(g, OutputsIn(g, s + [i])) == CoordsOf(g, OutputsIn(g, s)) + [CoordOf(g, i)]
    ensures BindingsOf(g, s) == [] ==> OutputsIn(g, s) == [] && CoordsOf(g, OutputsIn(g, s)) == []
  {
    CoordsNext(g, s, i);
    OutputsInNext(g, s, i);
    CoordsNext(g, OutputsIn(g, s), i);
  }

  lemma {:induction false} ReadersNext(g: Net, o: OutSlot, k: nat, c: nat, c': nat, i: InSlot)
    requires k < |g.layers| && c' == c + 1 && i == InSlot(g.layers[k], c) && i in g.source
    ensures g.source[i] == o ==> ReadersOf(g, o, k, c') == ReadersOf(g, o, k, c) + [i]
    ensures g.source[i] != o ==> ReadersOf(g, o, k, c') == ReadersOf(g, o, k, c)
  {
  }

  /** What the visit of reader i, in descriptor d, does to the infos. A reader of a Constant counts only if it is an Output. */
  ghost predicate InfosNoted(g: Net, infos: map<OutSlot, HandleInfo>, infos': map<OutSlot, HandleInfo>, i: InSlot, d: nat)
    requires i in g.source && g.source[i].layer in g.info && i.layer in g.info
  {
    var o := g.source[i];
    if !g.info[o.layer].kind.Constant? then o in infos && infos' == infos[o := Noted(g, infos[o], i, d)]
    else if g.info[i.layer].kind.Output? then infos' == infos[o := Noted(g, if o in infos then infos[o] else Fresh(), i, d)]
    else infos' == infos
  }

  lemma {:induction false} SourceVisited(g: Net, infos: map<OutSlot, HandleInfo>, infos': map<OutSlot, HandleInfo>, k: nat, j: nat,
                                         s: seq<InSlot>, i: InSlot, d: nat)
    requires g.Valid() && i in g.source && i.layer in g.info && g.source[i].layer in g.info && d == Descriptor(g, i.layer)
    requires InfoAt(g, infos, g.source[i], k, j, s) && InfosNoted(g, infos, infos', i, d)
    requires !g.info[g.source[i].layer].kind.Constant? ==> Tracked(g, g.source[i], k, j)
    ensures InfoAt(g, infos', g.source[i], k, j, s + [i])
  {
    var o := g.source[i];
    assert g.SourceOK(i);
    if !g.info[o.layer].kind.Constant? {
      NotedOK(g, infos[o], s, i, d);
    } else if g.info[i.layer].kind.Output? {
      ConstantNoted(g, if o in infos then infos[o] else Fresh(), s, i, d);
    } else {
      CoordsNext(g, s, i);
      OutputsInNext(g, s, i);
    }
  }

  /** The c-th input slot of the layer at position k. */
  lemma {:induction false} ReaderVisited(g: Net, infos: map<OutSlot, HandleInfo>, infos': map<OutSlot, HandleInfo>, k: nat, j: nat, c: nat, c': nat,
                                         i: InSlot, d: nat)
    requires g.Valid() && k < |g.layers| && i == InSlot(g.layers[k], c) && c' == c + 1 && i in g.source && d == Descriptor(g, i.layer)
    requires i.layer in g.info && g.source[i].layer in g.info && InfosOK(g, infos, k, j, c) && InfosNoted(g, infos, infos', i, d)
    requires !g.info[g.source[i].layer].kind.Constant? ==> Tracked(g, g.source[i], k, j)
    ensures InfosOK(g, infos', k, j, c')
  {
    forall o
      ensures InfoAt(g, infos', o, k, j, ReadersOf(g, o, k, c'))
    {
      assert InfoAt(g, infos, o, k, j, ReadersOf(g, o, k, c));
      ReadersNext(g, o, k, c, c', i);
      if o == g.source[i] {
        SourceVisited(g, infos, infos', k, j, ReadersOf(g, o, k, c), i, d);
      }
    }
  }

  lemma {:induction false} CellFilled(g: Net, handles: map<OutSlot, Handle>, cells: map<Coord, Handle>, k: nat, c: nat, c': nat, i: InSlot,
                                      d: nat)
    requires g.Valid() && NoImports(g) && k < |g.layers| && i == InSlot(g.layers[k], c) && c' == c + 1 && i in g.source && d == Descriptor(g, i.layer)
    requires CellsOK(g, handles, cells, k, c) && g.source[i] in handles
    ensures CellsOK(g, handles, cells[Coord(d, c) := handles[g.source[i]]], k, c')
  {
    var cells' := cells[Coord(d, c) := handles[g.source[i]]];
    forall x
      ensures CellOK(g, handles, cells', k, c', x)
    {
      assert CellOK(g, handles, cells, k, c, x);
      if x in g.source && Visited(g, x, k, c') {
        assert g.SourceOK(x) && x.layer in g.layers;
        if CoordOf(g, x) == CoordOf(g, i) {
          CoordsDiffer(g, x, i);
        }
      }
    }
  }

  /** What the walk needs: every input slot is connected, every output slot has a handle. */
  ghost predicate Walkable(g: Net, handles: map<OutSlot, Handle>) {
    && g.Valid() && Sorted(g) && NoImports(g)
    && (forall i :: g.IsIn(i) ==> i in g.source) && (forall o :: g.IsOut(o) ==> o in handles)
  }

  /** The input slots of the layer at position k, which has descriptor d. */
  method VisitReaders(g: Net, handles: map<OutSlot, Handle>, infos: map<OutSlot, HandleInfo>, cells: map<Coord, Handle>, k: nat, d: nat)
    returns (infos': map<OutSlot, HandleInfo>, cells': map<Coord, Handle>)
    requires Walkable(g, handles) && k < |g.layers| && g.layers[k] in g.info && d == Descriptor(g, g.layers[k])
    requires InfosOK(g, infos, k, g.info[g.layers[k]].numOut, 0) && CellsOK(g, handles, cells, k, 0)
    ensures InfosOK(g, infos', k, g.info[g.layers[k]].numOut, g.info[g.layers[k]].numIn)
    ensures CellsOK(g, handles, cells', k, g.info[g.layers[k]].numIn)
  {
    infos', cells' := infos, cells;
    var l := g.layers[k];
    var c := 0;
    while c < g.info[l].numIn
      invariant c <= g.info[l].numIn && InfosOK(g, infos', k, g.info[l].numOut, c) && CellsOK(g, handles, cells', k, c)
    {
      var next := c + 1;
      infos', cells' := VisitReader(g, handles, infos', cells', k, c, next, d);
      c := next;
    }
  }

  method VisitReader(g: Net, handles: map<OutSlot, Handle>, infos: map<OutSlot, HandleInfo>, cells: map<Coord, Handle>, k: nat, c: nat,
                     ghost next: nat, d: nat)
    returns (infos': map<OutSlot, HandleInfo>, cells': map<Coord, Handle>)
    requires Walkable(g, handles) && k < |g.layers| && g.layers[k] in g.info && d == Descriptor(g, g.layers[k])
    requires c < g.info[g.layers[k]].numIn && next == c + 1
    requires InfosOK(g, infos, k, g.info[g.layers[k]].numOut, c) && CellsOK(g, handles, cells, k, c)
    ensures InfosOK(g, infos', k, g.info[g.layers[k]].numOut, next) && CellsOK(g, handles, cells', k, next)
  {
    var i := InSlot(g.layers[k], c);
    assert g.IsIn(i) && g.SourceOK(i);
    var o := g.source[i];
    SourceTracked(g, k, i);
    infos' := infos;
    assert InfoAt(g, infos, o, k, g.info[g.layers[k]].numOut, ReadersOf(g, o, k, c));
    if !g.info[o.layer].kind.Constant? {
      var e := Note(g, infos[o], i, d);
      infos' := infos[o := e];
    } else if g.info[i.layer].kind.Output? {
      var e := Note(g, if o in infos then infos[o] else Fresh(), i, d);
      infos' := infos[o := e];
    }
    ReaderVisited(g, infos, infos', k, g.info[g.layers[k]].numOut, c, next, i, d);
    CellFilled(g, handles, cells, k, c, next, i, d);
    cells' := cells[Coord(d, c) := handles[o]];
  }

  lemma {:induction false} SourceTracked(g: Net, k: nat, i: InSlot)
    requires g.Valid() && Forward(g) && k < |g.layers| && i.layer == g.layers[k] && i in g.source
    ensures g.IsOut(g.source[i])
    ensures forall j :: !g.info[g.source[i].layer].kind.Constant? ==> Tracked(g, g.source[i], k, j)
    ensures forall j :: g.info[g.source[i].layer].kind.Constant? ==> !Tracked(g, g.source[i], k, j)
  {
    assert g.SourceOK(i);
    IndexOfUnique(g.layers, k);
  }

  lemma {:induction false} LayerVisited(g: Net, handles: map<OutSlot, Handle>, infos: map<OutSlot, HandleInfo>, cells: map<Coord, Handle>,
                                        k: nat, k': nat, j: nat)
    requires g.Valid() && k < |g.layers| && k' == k + 1 && g.layers[k] in g.info
    requires j == g.info[g.layers[k]].numOut || g.info[g.layers[k]].kind.Constant?
    requires InfosOK(g, infos, k, j, g.info[g.layers[k]].numIn) && CellsOK(g, handles, cells, k, g.info[g.layers[k]].numIn)
    ensures InfosOK(g, infos, k', 0, 0) && CellsOK(g, handles, cells, k', 0)
  {
    IndexOfUnique(g.layers, k);
    forall o
      ensures InfoAt(g, infos, o, k', 0, ReadersOf(g, o, k', 0))
    {
      assert InfoAt(g, infos, o, k, j, ReadersOf(g, o, k, g.info[g.layers[k]].numIn));
      assert ReadersOf(g, o, k', 0) == ReadersOf(g, o, k, g.info[g.layers[k]].numIn);
      assert o.layer in g.info ==> o.layer in g.layers;
      assert Tracked(g, o, k', 0) ==> Tracked(g, o, k, j);
    }
    forall i
      ensures CellOK(g, handles, cells, k', 0, i)
    {
      assert CellOK(g, handles, cells, k, g.info[g.layers[k]].numIn, i) && g.SourceOK(i);
      assert i in g.source ==> i.layer in g.layers;
    }
  }

  /** What has been collected: the handle infos, and the handles in the inputs and outputs of the descriptors. */
  datatype Collected = Collected(infos: map<OutSlot, HandleInfo>, inputs: map<Coord, Handle>, outputs: map<Coord, Handle>)

  ghost predicate CollectedOK(g: Net, handles: map<OutSlot, Handle>, a: Collected, k: nat) {
    InfosOK(g, a.infos, k, 0, 0) && CellsOK(g, handles, a.inputs, k, 0) && OutputsOK(g, handles, a.outputs, k, 0)
  }

  lemma {:induction false} CollectedStart(g: Net, handles: map<OutSlot, Handle>)
    ensures CollectedOK(g, handles, Collected(map[], map[], map[]), 0)
  {
  }

  /** One layer that is not a Constant. */
  method CollectLayer(g: Net, handles: map<OutSlot, Handle>, a: Collected, k: nat, d: nat) returns (a': Collected)
    requires Walkable(g, handles) && k < |g.layers| && g.layers[k] in g.info && !g.info[g.layers[k]].kind.Constant?
    requires CollectedOK(g, handles, a, k) && d == Descriptor(g, g.layers[k])
    ensures CollectedOK(g, handles, a', k + 1)
  {
    var l := g.layers[k];
    var infos := EnterSlots(g, a.infos, k, d);
    var outputs := a.outputs;
    if HasExecutionData(g, l) {
      outputs := FillOutputs(g, handles, outputs, k, d);
      OutputsNext(g, handles, outputs, k, k + 1, g.info[l].numOut);
    } else {
      OutputsNext(g, handles, outputs, k, k + 1, 0);
    }
    var inputs;
    infos, inputs := VisitReaders(g, handles, infos, a.inputs, k, d);
    LayerVisited(g, handles, infos, inputs, k, k + 1, g.info[l].numOut);
    a' := Collected(infos, inputs, outputs);
  }

  lemma {:induction false} ConstantCollected(g: Net, handles: map<OutSlot, Handle>, a: Collected, k: nat, k': nat)
    requires g.Valid() && k < |g.layers| && k' == k + 1 && g.layers[k] in g.info && g.info[g.layers[k]].kind.Constant?
    requires CollectedOK(g, handles, a, k)
    ensures CollectedOK(g, handles, a, k')
  {
    LayerVisited(g, handles, a.infos, a.inputs, k, k', 0);
    OutputsNext(g, handles, a.outputs, k, k', 0);
  }

  /** The part of CreateWorkingMemHandle that collects coordinates and fills the descriptors. */
  method Collect(g: Net, handles: map<OutSlot, Handle>) returns (a: Collected)
    requires Walkable(g, handles)
    ensures CollectedOK(g, handles, a, |g.layers|)
  {
    a := Collected(map[], map[], map[]);
    CollectedStart(g, handles);
    var d: nat, k: nat := 0, 0;
    while k < |g.layers|
      invariant k <= |g.layers| && d == |ExecutionDataOf(g, g.layers[..k])| && CollectedOK(g, handles, a, k)
    {
      var l := g.layers[k];
      assert l in g.layers;
      DescriptorAt(g, k);
      if !g.info[l].kind.Constant? {
        a := CollectLayer(g, handles, a, k, d);
        if !g.info[l].kind.Input? && !g.info[l].kind.MemImport? {
          d := d + 1;
        }
      } else {
        ConstantCollected(g, handles, a, k, k + 1);
      }
      k := k + 1;
    }
  }
}
