/**
  A loaded network's bookkeeping. The workload queue follows the sorted layer list without Inputs and
  Outputs, so a layer's workload sits at the layer's position minus the number of Inputs; the tables that
  tell which workload slots belong to an input or output of the network are made of such indices.
 */
module LoadedNetwork {
  import opened Sequences
  import opened NetGraph
  import opened Edges
  import opened Evaluation
  import opened Ordering
  import opened LayerEdits
  import opened GraphModel

  type Handle = nat

  /** An input or output handle of a workload, by the workload's index and the slot's. */
  datatype Cell = Cell(workload: nat, slot: nat)

  /** Layers that get a workload in a network that is not asynchronous. */
  predicate HasWorkload(g: Net, l: LayerId) {
    l in g.info && g.info[l].Rank() == 1
  }

  /** queue[position - number of Inputs] is the workload of the layer at that position. */
  ghost predicate QueueOK(g: Net, queue: seq<LayerId>) {
    && Inputs(g) + |queue| == FirstOutput(g)
    && forall k :: 0 <= k < |queue| ==> Inputs(g) + k < |g.layers| && queue[k] == g.layers[Inputs(g) + k]
  }

  /** The constructor's first step: whatever the flag says, the layers are sorted anew. */
  method EnsureOrder(graph: Graph) returns (r: Result<()>)
    requires graph.Valid()
    modifies graph`priority, graph`visiting, graph`layers, graph`layersInOrder
    ensures graph.Valid() && graph.Snapshot() == old(graph.Snapshot()).(layers := graph.layers)
    ensures graph.Sortable() ==> (r.Ok? <==> Acyclic(old(graph.Snapshot()))) && (r.Ok? ==> Sorted(graph.Snapshot()))
  {
    graph.layersInOrder := false;
    ghost var g := graph.Snapshot();
    r := graph.TopologicalSort();
  }

  /** The constructor's loop over the layers that fills the queue. */
  method BuildQueue(g: Net) returns (queue: seq<LayerId>)
    requires g.Valid() && Partitioned(g)
    ensures QueueOK(g, queue)
  {
    Sections(g);
    queue := [];
    var k: nat := 0;
    while k < |g.layers|
      invariant k <= |g.layers|
      invariant |queue| == (if k <= Inputs(g) then 0 else if k <= FirstOutput(g) then k - Inputs(g) else FirstOutput(g) - Inputs(g))
      invariant forall j :: 0 <= j < |queue| ==> Inputs(g) + j < |g.layers| && queue[j] == g.layers[Inputs(g) + j]
    {
      if !g.info[g.layers[k]].kind.Input? && !g.info[g.layers[k]].kind.Output? {
        queue := queue + [g.layers[k]];
      }
      k := k + 1;
    }
  }

  /** The index of the workload of a layer. */
  ghost function WorkloadOf(g: Net, l: LayerId): nat {
    if Pos(g, l) < Inputs(g) then 0 else Pos(g, l) - Inputs(g)
  }

  lemma {:induction false} WorkloadFound(g: Net, queue: seq<LayerId>, l: LayerId)
    requires g.Valid() && Partitioned(g) && QueueOK(g, queue) && HasWorkload(g, l)
    ensures Inputs(g) <= Pos(g, l) && WorkloadOf(g, l) < |queue| && queue[WorkloadOf(g, l)] == l
  {
    Sections(g);
    assert l in g.layers;
    assert g.layers[Pos(g, l)] == l;
  }

  ghost function InCell(g: Net, i: InSlot): Cell {
    Cell(WorkloadOf(g, i.layer), i.index)
  }

  ghost function OutCell(g: Net, o: OutSlot): Cell {
    Cell(WorkloadOf(g, o.layer), o.index)
  }

  /** Different slots of layers with workloads have different cells. */
  lemma {:induction false} CellsDiffer(g: Net, queue: seq<LayerId>, a: LayerId, b: LayerId)
    requires g.Valid() && Partitioned(g) && QueueOK(g, queue) && HasWorkload(g, a) && HasWorkload(g, b)
    ensures WorkloadOf(g, a) == WorkloadOf(g, b) ==> a == b
  {
    WorkloadFound(g, queue, a);
    WorkloadFound(g, queue, b);
  }

  ghost function InCells(g: Net, s: seq<InSlot>): (r: seq<Cell>)
    ensures |r| == |s|
    ensures forall k {:trigger r[k]} :: 0 <= k < |s| ==> r[k] == InCell(g, s[k])
  {
    seq(|s|, k requires 0 <= k < |s| => InCell(g, s[k]))
  }

  /** The readers of o that have workloads, in order. */
  function Consumers(g: Net, s: seq<InSlot>): seq<InSlot> {
    if s == [] then []
    else
      var i, rest := s[|s| - 1], Consumers(g, s[..|s| - 1]);
      if i.layer in g.info && g.info[i.layer].kind.Output? then rest else rest + [i]
  }

  lemma {:induction false} ConsumersMembers(g: Net, s: seq<InSlot>)
    ensures forall i :: i in Consumers(g, s) <==> i in s && !(i.layer in g.info && g.info[i.layer].kind.Output?)
  {
    if s != [] {
      ConsumersMembers(g, s[..|s| - 1]);
      assert forall i :: i in s <==> i in s[..|s| - 1] || i == s[|s| - 1];
    }
  }

  lemma {:induction false} ConsumersInOrder(g: Net, s: seq<InSlot>)
    ensures Subsequence(Consumers(g, s), s)
  {
    if s != [] {
      var t := s[..|s| - 1];
      ConsumersInOrder(g, t);
      var r := Consumers(g, s);
      if r != Consumers(g, t) {
        assert r[..|r| - 1] == Consumers(g, t);
      } else {
        SubsequenceLonger(Consumers(g, t), t, s[|s| - 1]);
        assert t + [s[|s| - 1]] == s;
      }
    }
  }

  /** What the network assumes: every input slot is connected, no Output reads an Input, no two Outputs read the same slot. */
  ghost predicate Runnable(g: Net) {
    && g.Valid() && Sorted(g)
    && (forall i :: g.IsIn(i) ==> i in g.source)
    && (forall l :: l in g.info && g.info[l].kind.Output? && InSlot(l, 0) in g.source ==> Lone(g, l))
  }

  /** The Output l reads a layer with a workload, and no other Output reads the same slot. */
  ghost predicate Lone(g: Net, l: LayerId)
    requires InSlot(l, 0) in g.source
  {
    && HasWorkload(g, g.source[InSlot(l, 0)].layer)
    && forall i :: i in g.source && g.source[i] == g.source[InSlot(l, 0)] && i.layer in g.info && g.info[i.layer].kind.Output? ==> i.layer == l
  }

  /** The workload slots tied to an output of the network: the one that produces it and those that also read it. */
  datatype OutputIndices = OutputIndices(produced: Cell, consumed: seq<Cell>)

  /** No two layers of one rank have the same binding id. */
  ghost predicate BindingsDiffer(g: Net, rank: nat) {
    forall a, b :: a in g.info && b in g.info && g.info[a].Rank() == rank && g.info[b].Rank() == rank
      ==> (g.info[a].bindingId == g.info[b].bindingId ==> a == b)
  }

  ghost predicate InputTable(g: Net, pairs: map<int, seq<Cell>>, n: nat) {
    forall k :: 0 <= k < n && k < |g.layers| ==> InputEntry(g, pairs, g.layers[k])
  }

  /** The entry of an Input lists the cells of its readers, in order. */
  ghost predicate InputEntry(g: Net, pairs: map<int, seq<Cell>>, l: LayerId) {
    && l in g.info && g.info[l].bindingId in pairs
    && pairs[g.info[l].bindingId] == InCells(g, g.Sinks(OutSlot(l, 0)))
  }

  /** A layer's workload index, from its position in the list. */
  method WorkloadIndex(g: Net, noOfInputs: nat, l: LayerId) returns (w: int)
    requires g.Valid() && noOfInputs == Inputs(g)
    ensures Inputs(g) <= Pos(g, l) ==> w == WorkloadOf(g, l)
  {
    var p := Find(g.layers, l);
    w := p - noOfInputs;
  }

  /** The cells of a list of readers. */
  method CellsOf(g: Net, noOfInputs: nat, s: seq<InSlot>) returns (r: seq<Cell>)
    requires g.Valid() && noOfInputs == Inputs(g) && forall i :: i in s ==> Inputs(g) <= Pos(g, i.layer)
    ensures r == InCells(g, s)
  {
    r := [];
    var n := 0;
    while n < |s|
      invariant n <= |s| && r == InCells(g, s[..n])
    {
      assert s[n] in s;
      assert s[..n + 1] == s[..n] + [s[n]];
      var w := WorkloadIndex(g, noOfInputs, s[n].layer);
      r := r + [Cell(w, s[n].index)];
      n := n + 1;
    }
    assert s[..n] == s;
  }

  lemma {:induction false} ReadersHaveWorkloads(g: Net, l: LayerId)
    requires g.Valid() && Partitioned(g)
    ensures forall i :: i in g.Sinks(OutSlot(l, 0)) ==> Inputs(g) <= Pos(g, i.layer) && g.IsIn(i)
  {
    Sections(g);
    assert g.SinksOK(OutSlot(l, 0));
    forall i | i in g.Sinks(OutSlot(l, 0))
      ensures Inputs(g) <= Pos(g, i.layer) && g.IsIn(i)
    {
      assert g.SourceOK(i);
      assert i.layer in g.layers;
    }
  }

  lemma {:induction false} InputEntryKept(g: Net, pairs: map<int, seq<Cell>>, pairs': map<int, seq<Cell>>, n: nat, id: int)
    requires BindingsDiffer(g, 0) && g.Listed() && InputTable(g, pairs, n) && n < Inputs(g) && Inputs(g) <= |g.layers|
    requires g.layers[n] in g.info
    requires forall k :: 0 <= k < Inputs(g) ==> g.layers[k] in g.info && g.info[g.layers[k]].Rank() == 0
    requires id == g.info[g.layers[n]].bindingId && pairs' == pairs[id := InCells(g, g.Sinks(OutSlot(g.layers[n], 0)))]
    ensures InputTable(g, pairs', n + 1)
  {
    var n' := n + 1;
    forall k | 0 <= k < n'
      ensures InputEntry(g, pairs', g.layers[k])
    {
      if k < n {
        NoDupDistinct(g.layers, k, n);
        assert InputEntry(g, pairs, g.layers[k]);
      }
    }
  }

  /** The constructor's table of the workload slots tied to each Input. */
  method BuildInputPairs(g: Net, noOfInputs: nat) returns (pairs: map<int, seq<Cell>>)
    requires g.Valid() && Partitioned(g) && noOfInputs == Inputs(g) && BindingsDiffer(g, 0)
    ensures InputTable(g, pairs, Inputs(g))
  {
    Sections(g);
    pairs := map[];
    var k := 0;
    while k < noOfInputs
      invariant k <= noOfInputs && InputTable(g, pairs, k)
    {
      var l := g.layers[k];
      ReadersHaveWorkloads(g, l);
      var cells := CellsOf(g, noOfInputs, g.Sinks(OutSlot(l, 0)));
      InputEntryKept(g, pairs, pairs[g.info[l].bindingId := cells], k, g.info[l].bindingId);
      pairs := pairs[g.info[l].bindingId := cells];
      k := k + 1;
    }
  }

  ghost predicate OutputTable(g: Net, pairs: map<int, OutputIndices>, n: nat) {
    forall k :: FirstOutput(g) <= k < n && k < |g.layers| ==> OutputEntry(g, pairs, g.layers[k])
  }

  /** The entry of an Output: the cell of the slot it reads, and those of the slot's other readers; if it reads an
      Input, nothing is filled in. */
  ghost predicate OutputEntry(g: Net, pairs: map<int, OutputIndices>, l: LayerId) {
    && l in g.info && g.info[l].bindingId in pairs && InSlot(l, 0) in g.source
    && pairs[g.info[l].bindingId] == IndicesOf(g, g.source[InSlot(l, 0)])
  }

  ghost function IndicesOf(g: Net, o: OutSlot): OutputIndices {
    if HasWorkload(g, o.layer) then OutputIndices(OutCell(g, o), InCells(g, Consumers(g, g.Sinks(o))))
    else OutputIndices(Cell(0, 0), [])
  }

  method ConsumersOf(g: Net, s: seq<InSlot>) returns (r: seq<InSlot>)
    requires forall i :: i in s ==> i.layer in g.info
    ensures r == Consumers(g, s) && Subsequence(r, s)
    ensures forall i :: i in r <==> i in s && !g.info[i.layer].kind.Output?
  {
    ConsumersInOrder(g, s);
    ConsumersMembers(g, s);
    r := [];
    var n := 0;
    while n < |s|
      invariant n <= |s| && r == Consumers(g, s[..n])
    {
      assert s[n] in s;
      assert s[..n + 1][..n] == s[..n];
      if !g.info[s[n].layer].kind.Output? {
        r := r + [s[n]];
      }
      n := n + 1;
    }
    assert s[..n] == s;
  }

  lemma {:induction false} OutputEntryKept(g: Net, pairs: map<int, OutputIndices>, pairs': map<int, OutputIndices>, n: nat,
                                           id: int, e: OutputIndices)
    requires BindingsDiffer(g, 2) && g.Listed() && OutputTable(g, pairs, n) && FirstOutput(g) <= n < |g.layers|
    requires forall k :: FirstOutput(g) <= k < |g.layers| ==> g.layers[k] in g.info && g.info[g.layers[k]].Rank() == 2
    requires id == g.info[g.layers[n]].bindingId && pairs' == pairs[id := e] && OutputEntry(g, pairs', g.layers[n])
    ensures OutputTable(g, pairs', n + 1)
  {
    var n' := n + 1;
    forall k | FirstOutput(g) <= k < n'
      ensures OutputEntry(g, pairs', g.layers[k])
    {
      if k < n {
        NoDupDistinct(g.layers, k, n);
        assert OutputEntry(g, pairs, g.layers[k]);
      }
    }
  }

  /** The cells tied to the slot o that an Output reads. */
  method OutputCells(graph: Graph, noOfInputs: nat, o: OutSlot) returns (e: OutputIndices)
    requires graph.Valid() && Partitioned(graph.Snapshot()) && noOfInputs == Inputs(graph.Snapshot())
    requires graph.Snapshot().IsOut(o) && graph.Snapshot().Sinks(o) != []
    ensures e == IndicesOf(graph.Snapshot(), o)
  {
    var g := graph.Snapshot();
    HasCell(g, o);
    if g.info[o.layer].kind.Input? {
      return OutputIndices(Cell(0, 0), []);
    }
    SlotReaders(g, o);
    var w := WorkloadIndex(g, noOfInputs, o.layer);
    var slot := graph.CalculateIndexOnOwner(o);
    var consumers := ConsumersOf(g, g.Sinks(o));
    ConsumersMembers(g, g.Sinks(o));
    var cells := CellsOf(g, noOfInputs, consumers);
    e := OutputIndices(Cell(w, slot), cells);
  }

  lemma {:induction false} HasCell(g: Net, o: OutSlot)
    requires g.Valid() && Partitioned(g) && g.IsOut(o)
    ensures HasWorkload(g, o.layer) <==> !g.info[o.layer].kind.Input?
    ensures HasWorkload(g, o.layer) ==> Inputs(g) <= Pos(g, o.layer)
  {
    Sections(g);
    assert o.layer in g.layers;
  }

  lemma {:induction false} SlotReaders(g: Net, o: OutSlot)
    requires g.Valid() && Partitioned(g)
    ensures forall i :: i in g.Sinks(o) ==> i.layer in g.info && Inputs(g) <= Pos(g, i.layer)
  {
    Sections(g);
    assert g.SinksOK(o);
    forall i | i in g.Sinks(o)
      ensures i.layer in g.info && Inputs(g) <= Pos(g, i.layer)
    {
      assert g.SourceOK(i) && i.layer in g.layers;
    }
  }

  /** The cell that is switched for the Output l is that of the slot it reads, and no other Output's. */
  ghost predicate OwnCell(g: Net, queue: seq<LayerId>, pairs: map<int, OutputIndices>, l: LayerId)
    requires OutputEntry(g, pairs, l)
  {
    var c := pairs[g.info[l].bindingId].produced;
    && c.workload < |queue| && OutSlot(queue[c.workload], c.slot) == g.source[InSlot(l, 0)]
    && forall m :: m != l && OutputEntry(g, pairs, m) && g.info[m].kind.Output? ==> pairs[g.info[m].bindingId].produced != c
  }

  lemma {:induction false} OutputsLinked(g: Net, l: LayerId)
    requires g.Valid() && l in g.info && g.info[l].kind.Output? && InSlot(l, 0) in g.source
    ensures g.IsOut(g.source[InSlot(l, 0)])
  {
    assert g.SourceOK(InSlot(l, 0));
  }

  /** Every Output has a cell of its own if and only if none reads an Input and no two read the same slot. */
  lemma {:induction false} OwnCellsExactly(g: Net, queue: seq<LayerId>, pairs: map<int, OutputIndices>)
    requires g.Valid() && Partitioned(g) && QueueOK(g, queue)
    requires forall l :: l in g.info && g.info[l].kind.Output? ==> OutputEntry(g, pairs, l)
    ensures (forall l :: l in g.info && g.info[l].kind.Output? ==> OwnCell(g, queue, pairs, l))
      <==> (forall l :: l in g.info && g.info[l].kind.Output? ==> InSlot(l, 0) in g.source && Lone(g, l))
  {
    if forall l :: l in g.info && g.info[l].kind.Output? ==> OwnCell(g, queue, pairs, l) {
      forall l | l in g.info && g.info[l].kind.Output?
        ensures InSlot(l, 0) in g.source && Lone(g, l)
      {
        OwnCellIsLone(g, queue, pairs, l);
      }
    }
    if forall l :: l in g.info && g.info[l].kind.Output? ==> InSlot(l, 0) in g.source && Lone(g, l) {
      forall l | l in g.info && g.info[l].kind.Output?
        ensures OwnCell(g, queue, pairs, l)
      {
        LoneHasOwnCell(g, queue, pairs, l);
      }
    }
  }

  /** Two Outputs on one slot have the same cell; that of an Output on an Input is none of the Input's. */
  lemma {:induction false} OwnCellIsLone(g: Net, queue: seq<LayerId>, pairs: map<int, OutputIndices>, l: LayerId)
    requires g.Valid() && Partitioned(g) && QueueOK(g, queue) && l in g.info && g.info[l].kind.Output?
    requires forall m :: m in g.info && g.info[m].kind.Output? ==> OutputEntry(g, pairs, m)
    requires OwnCell(g, queue, pairs, l)
    ensures InSlot(l, 0) in g.source && Lone(g, l)
  {
    var o := g.source[InSlot(l, 0)];
    OutputsLinked(g, l);
    QueueHasWorkloads(g, queue, pairs[g.info[l].bindingId].produced.workload);
    forall i | i in g.source && g.source[i] == o && i.layer in g.info && g.info[i.layer].kind.Output?
      ensures i.layer == l
    {
      assert g.SourceOK(i) && g.info[i.layer].WellShaped() && i == InSlot(i.layer, 0);
      assert OutputEntry(g, pairs, i.layer);
    }
  }

  lemma {:induction false} QueueHasWorkloads(g: Net, queue: seq<LayerId>, w: nat)
    requires g.Valid() && Partitioned(g) && QueueOK(g, queue) && w < |queue|
    ensures HasWorkload(g, queue[w])
  {
    Sections(g);
  }

  lemma {:induction false} LoneHasOwnCell(g: Net, queue: seq<LayerId>, pairs: map<int, OutputIndices>, l: LayerId)
    requires g.Valid() && Partitioned(g) && QueueOK(g, queue) && l in g.info && g.info[l].kind.Output?
    requires forall m :: m in g.info && g.info[m].kind.Output? ==> OutputEntry(g, pairs, m) && Lone(g, m)
    ensures OutputEntry(g, pairs, l) && OwnCell(g, queue, pairs, l)
  {
    var o := g.source[InSlot(l, 0)];
    assert OutputEntry(g, pairs, l) && Lone(g, l);
    WorkloadFound(g, queue, o.layer);
    forall m | m != l && OutputEntry(g, pairs, m) && g.info[m].kind.Output?
      ensures pairs[g.info[m].bindingId].produced != pairs[g.info[l].bindingId].produced
    {
      assert Lone(g, m);
      CellsDiffer(g, queue, o.layer, g.source[InSlot(m, 0)].layer);
    }
  }

  /** The constructor's table of the workload slots tied to each Output. */
  method BuildOutputPairs(graph: Graph, noOfInputs: nat, noOfOutputs: nat) returns (pairs: map<int, OutputIndices>)
    requires graph.Valid() && Partitioned(graph.Snapshot()) && noOfInputs == Inputs(graph.Snapshot())
    requires forall i :: graph.Snapshot().IsIn(i) ==> i in graph.source
    requires noOfOutputs == Bound(graph.Snapshot(), 2) && BindingsDiffer(graph.Snapshot(), 2)
    ensures OutputTable(graph.Snapshot(), pairs, |graph.layers|)
  {
    var g := graph.Snapshot();
    Sections(g);
    pairs := map[];
    var k: nat := |g.layers| - noOfOutputs;
    while k < |g.layers|
      invariant FirstOutput(g) <= k <= |g.layers| && OutputTable(g, pairs, k)
    {
      var l := g.layers[k];
      assert g.IsIn(InSlot(l, 0)) && g.SourceOK(InSlot(l, 0));
      var e := OutputCells(graph, noOfInputs, g.source[InSlot(l, 0)]);
      OutputEntryKept(g, pairs, pairs[g.info[l].bindingId := e], k, g.info[l].bindingId, e);
      pairs := pairs[g.info[l].bindingId := e];
      k := k + 1;
    }
  }

  /** What is fixed when a network has been loaded: its graph, the queue, the tables, the graph's own handles,
      and the pre-imported handles of its inputs and outputs. */
  datatype Plan = Plan(g: Net, queue: seq<LayerId>, inputPairs: map<int, seq<Cell>>, outputPairs: map<int, OutputIndices>,
                       data: map<OutSlot, Handle>, preIn: seq<Handle>, preOut: seq<Handle>)
  {
    /** What the constructor builds for any sorted graph without unconnected inputs. */
    ghost predicate Built() {
      && g.Valid() && Sorted(g) && (forall i :: g.IsIn(i) ==> i in g.source) && QueueOK(g, queue)
      && InputTable(g, inputPairs, Inputs(g)) && OutputTable(g, outputPairs, |g.layers|)
      && (forall o :: g.IsOut(o) ==> o in data)
    }

    /** What switching handles relies on. */
    ghost predicate Valid() {
      Built() && Runnable(g) && |preIn| == Inputs(g) && |preOut| == Bound(g, 2)
    }
  }

  /** What executions change: the handles in the workloads, and which inputs and outputs are imported. */
  datatype State = State(ins: map<Cell, Handle>, outs: map<Cell, Handle>, isIn: seq<bool>, isOut: seq<bool>)

  /** The input or output of the network that an output slot is tied to. */
  datatype Tie = InputNo(k: nat) | OutputNo(m: nat) | Free

  /** The Output among the readers of a slot, if there is one. */
  ghost function OutputAmong(g: Net, s: seq<InSlot>): (t: Tie)
    ensures !t.InputNo?
  {
    if s == [] then Free
    else
      var l := s[|s| - 1].layer;
      if l in g.info && g.info[l].kind.Output? && FirstOutput(g) <= Pos(g, l) then OutputNo(Pos(g, l) - FirstOutput(g))
      else OutputAmong(g, s[..|s| - 1])
  }

  ghost function TieOf(g: Net, o: OutSlot): Tie {
    if o.layer in g.info && g.info[o.layer].kind.Input? then InputNo(Pos(g, o.layer)) else OutputAmong(g, g.Sinks(o))
  }

  lemma {:induction false} OutputFound(g: Net, s: seq<InSlot>, m: nat)
    requires OutputAmong(g, s) == OutputNo(m)
    ensures exists i :: i in s && i.layer in g.info && g.info[i.layer].kind.Output? && Pos(g, i.layer) == FirstOutput(g) + m
  {
    var i := s[|s| - 1];
    if !(i.layer in g.info && g.info[i.layer].kind.Output? && FirstOutput(g) <= Pos(g, i.layer)) {
      OutputFound(g, s[..|s| - 1], m);
    }
  }

  lemma {:induction false} OutputIsFound(g: Net, s: seq<InSlot>, i: InSlot)
    requires i in s && i.layer in g.info && g.info[i.layer].kind.Output? && FirstOutput(g) <= Pos(g, i.layer)
    requires forall j :: j in s && j.layer in g.info && g.info[j.layer].kind.Output? ==> j.layer == i.layer
    ensures OutputAmong(g, s) == OutputNo(Pos(g, i.layer) - FirstOutput(g))
  {
    var rest := s[..|s| - 1];
    assert s[|s| - 1] in s;
    if s[|s| - 1].layer != i.layer {
      assert i in rest;
      OutputIsFound(g, rest, i);
    }
  }

  /** The handle that belongs in workload slots with tie t, whose own handle is given. */
  ghost function Held(p: Plan, s: State, t: Tie, own: Handle): Handle {
    match t
    case InputNo(k) => if k < |s.isIn| && k < |p.preIn| && s.isIn[k] then p.preIn[k] else own
    case OutputNo(m) => if m < |s.isOut| && m < |p.preOut| && s.isOut[m] then p.preOut[m] else own
    case Free => own
  }

  /** The handle that every workload slot tied to o should hold. */
  ghost function HandleOf(p: Plan, s: State, o: OutSlot): Handle {
    Held(p, s, TieOf(p.g, o), if o in p.data then p.data[o] else 0)
  }

  ghost predicate InCellOK(p: Plan, s: State, i: InSlot) {
    i in p.g.source && HasWorkload(p.g, i.layer) ==>
      InCell(p.g, i) in s.ins && s.ins[InCell(p.g, i)] == HandleOf(p, s, p.g.source[i])
  }

  ghost predicate OutCellOK(p: Plan, s: State, o: OutSlot) {
    p.g.IsOut(o) && HasWorkload(p.g, o.layer) ==>
      OutCell(p.g, o) in s.outs && s.outs[OutCell(p.g, o)] == HandleOf(p, s, o)
  }

  /** An input or output is marked as imported exactly when all workload slots tied to it hold its pre-imported handle;
      otherwise they hold the graph's own handle. */
  ghost predicate Consistent(p: Plan, s: State) {
    && |s.isIn| == Inputs(p.g) && |s.isOut| == Bound(p.g, 2)
    && (forall i :: InCellOK(p, s, i)) && (forall o :: OutCellOK(p, s, o))
  }

  /** Output l of the network reads slot o. */
  ghost predicate Reads(g: Net, l: LayerId, o: OutSlot) {
    l in g.info && g.info[l].kind.Output? && InSlot(l, 0) in g.source && g.source[InSlot(l, 0)] == o
  }

  /** h is the handle for slot o: the pre-imported one of the Input it belongs to, or of the Output that reads it, if that is
      imported, and the graph's own otherwise. */
  ghost predicate RightHandle(p: Plan, s: State, o: OutSlot, h: Handle) {
    o in p.data && o.layer in p.g.info &&
    var k := Pos(p.g, o.layer);
    if p.g.info[o.layer].kind.Input? then k < |s.isIn| && k < |p.preIn| && h == if s.isIn[k] then p.preIn[k] else p.data[o]
    else
      && (forall l :: Reads(p.g, l, o) ==> RightForOutput(p, s, Pos(p.g, l) - FirstOutput(p.g), p.data[o], h))
      && ((forall l :: !Reads(p.g, l, o)) ==> h == p.data[o])
  }

  ghost predicate RightForOutput(p: Plan, s: State, m: int, own: Handle, h: Handle) {
    0 <= m < |s.isOut| && m < |p.preOut| && h == if s.isOut[m] then p.preOut[m] else own
  }

  /** Layers with workloads are neither Inputs nor Outputs; the workload of the layer at position k is number k less the Inputs. */
  ghost predicate InRight(p: Plan, s: State, i: InSlot) {
    i in p.g.source && i.layer in p.g.info && !p.g.info[i.layer].kind.Input? && !p.g.info[i.layer].kind.Output? ==>
      && Inputs(p.g) <= Pos(p.g, i.layer) && Cell(Pos(p.g, i.layer) - Inputs(p.g), i.index) in s.ins
      && RightHandle(p, s, p.g.source[i], s.ins[Cell(Pos(p.g, i.layer) - Inputs(p.g), i.index)])
  }

  ghost predicate OutRight(p: Plan, s: State, o: OutSlot) {
    p.g.IsOut(o) && !p.g.info[o.layer].kind.Input? && !p.g.info[o.layer].kind.Output? ==>
      && Inputs(p.g) <= Pos(p.g, o.layer) && Cell(Pos(p.g, o.layer) - Inputs(p.g), o.index) in s.outs
      && RightHandle(p, s, o, s.outs[Cell(Pos(p.g, o.layer) - Inputs(p.g), o.index)])
  }

  ghost predicate HandlesRight(p: Plan, s: State) {
    (forall i :: InRight(p, s, i)) && (forall o :: OutRight(p, s, o))
  }

  /** An Input's slot is tied to it, a slot that an Output reads to that Output, and any other slot to nothing. */
  lemma {:induction false} TieMeans(g: Net, o: OutSlot)
    requires Runnable(g) && g.IsOut(o)
    ensures g.info[o.layer].kind.Input? ==> Pos(g, o.layer) < Inputs(g) && TieOf(g, o) == InputNo(Pos(g, o.layer))
    ensures forall l :: Reads(g, l, o) ==> FirstOutput(g) <= Pos(g, l) < |g.layers| && TieOf(g, o) == OutputNo(Pos(g, l) - FirstOutput(g))
    ensures !g.info[o.layer].kind.Input? && (forall l :: !Reads(g, l, o)) ==> TieOf(g, o) == Free
  {
    Sections(g);
    assert o.layer in g.layers;
    forall l | Reads(g, l, o)
      ensures FirstOutput(g) <= Pos(g, l) < |g.layers| && TieOf(g, o) == OutputNo(Pos(g, l) - FirstOutput(g))
    {
      assert l in g.layers;
      TieOfOutput(g, l);
    }
    if TieOf(g, o).OutputNo? {
      var l := TiedReader(g, o);
    }
  }

  /** A slot with an Output's tie is read by an Output. */
  lemma {:induction false} TiedReader(g: Net, o: OutSlot) returns (l: LayerId)
    requires g.Valid() && TieOf(g, o).OutputNo?
    ensures Reads(g, l, o)
  {
    OutputFound(g, g.Sinks(o), TieOf(g, o).m);
    var i :| i in g.Sinks(o) && i.layer in g.info && g.info[i.layer].kind.Output?;
    assert g.SinksOK(o) && g.SourceOK(i) && g.info[i.layer].WellShaped();
    l := i.layer;
  }

  /** The handle that a slot is due is the right one. */
  lemma {:induction false} DueIsRight(p: Plan, s: State, o: OutSlot, h: Handle)
    requires p.Valid() && p.g.IsOut(o) && |s.isIn| == Inputs(p.g) && |s.isOut| == Bound(p.g, 2)
    ensures RightHandle(p, s, o, h) <==> h == HandleOf(p, s, o)
  {
    TieMeans(p.g, o);
    BoundAtMost(p.g, 2);
    if p.g.info[o.layer].kind.Input? || forall l :: !Reads(p.g, l, o) {
    } else {
      var l :| Reads(p.g, l, o);
      OnlyReader(p, s, o, h, l);
    }
  }

  lemma {:induction false} OnlyReader(p: Plan, s: State, o: OutSlot, h: Handle, l: LayerId)
    requires o in p.data && p.g.IsOut(o) && !p.g.info[o.layer].kind.Input? && Reads(p.g, l, o)
    requires |s.isOut| == |p.preOut| == Bound(p.g, 2) && FirstOutput(p.g) + Bound(p.g, 2) == |p.g.layers|
    requires forall m :: Reads(p.g, m, o) ==>
      FirstOutput(p.g) <= Pos(p.g, m) < |p.g.layers| && TieOf(p.g, o) == OutputNo(Pos(p.g, m) - FirstOutput(p.g))
    ensures RightHandle(p, s, o, h) <==> h == HandleOf(p, s, o)
  {
  }

  /** The workload slots hold what they are due exactly if they hold the right handles. */
  lemma {:induction false} ConsistentExactly(p: Plan, s: State)
    requires p.Valid() && |s.isIn| == Inputs(p.g) && |s.isOut| == Bound(p.g, 2)
    ensures Consistent(p, s) <==> HandlesRight(p, s)
  {
    forall i
      ensures InCellOK(p, s, i) <==> InRight(p, s, i)
    {
      if i in p.g.source && HasWorkload(p.g, i.layer) {
        assert p.g.SourceOK(i);
        WorkloadFound(p.g, p.queue, i.layer);
        if InCell(p.g, i) in s.ins {
          DueIsRight(p, s, p.g.source[i], s.ins[InCell(p.g, i)]);
        }
        InExactly(p, s, i);
      }
    }
    forall o
      ensures OutCellOK(p, s, o) <==> OutRight(p, s, o)
    {
      if p.g.IsOut(o) && HasWorkload(p.g, o.layer) {
        WorkloadFound(p.g, p.queue, o.layer);
        if OutCell(p.g, o) in s.outs {
          DueIsRight(p, s, o, s.outs[OutCell(p.g, o)]);
        }
        OutExactly(p, s, o);
      }
    }
    SlotBySlot(p, s);
  }

  lemma {:induction false} SlotBySlot(p: Plan, s: State)
    requires |s.isIn| == Inputs(p.g) && |s.isOut| == Bound(p.g, 2)
    requires forall i :: InCellOK(p, s, i) <==> InRight(p, s, i)
    requires forall o :: OutCellOK(p, s, o) <==> OutRight(p, s, o)
    ensures Consistent(p, s) <==> HandlesRight(p, s)
  {
  }

  lemma {:induction false} InExactly(p: Plan, s: State, i: InSlot)
    requires i in p.g.source && HasWorkload(p.g, i.layer) && Inputs(p.g) <= Pos(p.g, i.layer)
    requires var x := InCell(p.g, i);
      x in s.ins ==> (RightHandle(p, s, p.g.source[i], s.ins[x]) <==> s.ins[x] == HandleOf(p, s, p.g.source[i]))
    ensures InCellOK(p, s, i) <==> InRight(p, s, i)
  {
  }

  lemma {:induction false} OutExactly(p: Plan, s: State, o: OutSlot)
    requires p.g.IsOut(o) && HasWorkload(p.g, o.layer) && Inputs(p.g) <= Pos(p.g, o.layer)
    requires var x := OutCell(p.g, o); x in s.outs ==> (RightHandle(p, s, o, s.outs[x]) <==> s.outs[x] == HandleOf(p, s, o))
    ensures OutCellOK(p, s, o) <==> OutRight(p, s, o)
  {
  }

  lemma {:induction false} InputTie(g: Net, k: nat)
    requires g.Valid() && Partitioned(g) && k < Inputs(g)
    ensures k < |g.layers| && g.layers[k] in g.info && g.info[g.layers[k]].kind.Input? && TieOf(g, OutSlot(g.layers[k], 0)) == InputNo(k)
    ensures forall o :: g.IsOut(o) && TieOf(g, o) == InputNo(k) ==> o == OutSlot(g.layers[k], 0)
  {
    Sections(g);
    IndexOfUnique(g.layers, k);
    forall o | g.IsOut(o) && TieOf(g, o) == InputNo(k)
      ensures o == OutSlot(g.layers[k], 0)
    {
      assert o.layer in g.layers;
    }
  }

  /** Only the Output at position FirstOutput + m can give a slot the tie OutputNo(m). */
  lemma {:induction false} TieToOutput(g: Net, o: OutSlot, m: nat, k: nat)
    requires g.Valid() && TieOf(g, o) == OutputNo(m) && k == FirstOutput(g) + m && k < |g.layers|
    ensures InSlot(g.layers[k], 0) in g.source && g.source[InSlot(g.layers[k], 0)] == o
  {
    OutputFound(g, g.Sinks(o), m);
    var i :| i in g.Sinks(o) && i.layer in g.info && g.info[i.layer].kind.Output? && Pos(g, i.layer) == FirstOutput(g) + m;
    assert g.SinksOK(o) && g.SourceOK(i) && i.layer in g.layers;
  }

  lemma {:induction false} TieOfOutput(g: Net, l: LayerId)
    requires Runnable(g) && l in g.info && g.info[l].kind.Output? && InSlot(l, 0) in g.source && FirstOutput(g) <= Pos(g, l)
    ensures TieOf(g, g.source[InSlot(l, 0)]) == OutputNo(Pos(g, l) - FirstOutput(g))
  {
    var i := InSlot(l, 0);
    var o := g.source[i];
    assert Lone(g, l) && g.SourceOK(i);
    assert g.SinksOK(o);
    OutputIsFound(g, g.Sinks(o), i);
  }

  /** o, and no other slot, is tied to the m-th Output. */
  ghost predicate OnlyTied(g: Net, m: nat, o: OutSlot) {
    forall q :: TieOf(g, q) == OutputNo(m) <==> q == o
  }

  /** The slot that the m-th Output reads. */
  lemma {:induction false} OutputTie(g: Net, m: nat, k: nat)
    requires Runnable(g) && m < Bound(g, 2) && k == FirstOutput(g) + m
    ensures k < |g.layers|
    ensures var l := g.layers[k];
      && l in g.info && g.info[l].kind.Output? && InSlot(l, 0) in g.source
      && OnlyTied(g, m, g.source[InSlot(l, 0)])
  {
    Sections(g);
    BoundAtMost(g, 2);
    var l := g.layers[k];
    IndexOfUnique(g.layers, k);
    assert g.IsIn(InSlot(l, 0));
    TieOfOutput(g, l);
    forall o | TieOf(g, o) == OutputNo(m)
      ensures o == g.source[InSlot(l, 0)]
    {
      TieToOutput(g, o, m, k);
    }
  }

  /** Replacing the handles in a list of cells. */
  ghost predicate Replaced(ins: map<Cell, Handle>, ins': map<Cell, Handle>, cells: seq<Cell>, h: Handle) {
    && (forall c :: c in ins' <==> c in ins || c in cells)
    && (forall c :: c in ins' ==> ins'[c] == if c in cells then h else ins[c])
  }

  /** IWorkload::ReplaceInputTensorHandle on every workload slot in the list; every index is inside the queue. */
  method ReplaceInputs(queue: seq<LayerId>, ins: map<Cell, Handle>, cells: seq<Cell>, h: Handle) returns (ins': map<Cell, Handle>)
    requires forall c :: c in cells ==> c.workload < |queue|
    ensures Replaced(ins, ins', cells, h)
  {
    ins' := ins;
    var n := 0;
    while n < |cells|
      invariant n <= |cells| && Replaced(ins, ins', cells[..n], h)
    {
      assert cells[..n + 1] == cells[..n] + [cells[n]];
      ins' := ins'[cells[n] := h];
      n := n + 1;
    }
    assert cells[..n] == cells;
  }

  /** Which cells belong to the readers of o. */
  lemma {:induction false} ReaderCells(g: Net, queue: seq<LayerId>, s: seq<InSlot>, i: InSlot)
    requires g.Valid() && Partitioned(g) && QueueOK(g, queue) && HasWorkload(g, i.layer)
    requires forall j :: j in s ==> HasWorkload(g, j.layer)
    ensures InCell(g, i) in InCells(g, s) <==> i in s
  {
    if i in s {
      assert InCells(g, s)[IndexOf(s, i)] == InCell(g, i);
    }
    if InCell(g, i) in InCells(g, s) {
      var k := IndexOf(InCells(g, s), InCell(g, i));
      assert s[k] in s;
      CellsDiffer(g, queue, s[k].layer, i.layer);
    }
  }

  lemma {:induction false} HeldInput(p: Plan, s: State, s': State, k: nat, imported: bool, t: Tie, own: Handle)
    requires |p.preIn| == |s.isIn| && k < |s.isIn| && s'.isIn == s.isIn[k := imported] && s'.isOut == s.isOut
    ensures Held(p, s', t, own) == if t == InputNo(k) then (if imported then p.preIn[k] else own) else Held(p, s, t, own)
  {
  }

  lemma {:induction false} InputHandle(p: Plan, s: State, s': State, k: nat, imported: bool, o: OutSlot, q: OutSlot)
    requires |p.preIn| == |s.isIn| && k < |s.isIn| && s'.isIn == s.isIn[k := imported] && s'.isOut == s.isOut
    requires TieOf(p.g, o) == InputNo(k) && o in p.data
    requires TieOf(p.g, q) == InputNo(k) ==> q == o
    ensures HandleOf(p, s', q) == if q == o then (if imported then p.preIn[k] else p.data[o]) else HandleOf(p, s, q)
  {
    HeldInput(p, s, s', k, imported, TieOf(p.g, q), if q in p.data then p.data[q] else 0);
  }

  /** Switching all workload slots tied to an input keeps the network consistent. */
  lemma {:induction false} InputSwitched(p: Plan, s: State, s': State, k: nat, imported: bool, o: OutSlot)
    requires p.Valid() && Consistent(p, s) && k < Inputs(p.g) && k < |p.g.layers| && o == OutSlot(p.g.layers[k], 0) && o in p.data
    requires s' == s.(ins := s'.ins, isIn := s.isIn[k := imported])
    requires Replaced(s.ins, s'.ins, InCells(p.g, p.g.Sinks(o)), if imported then p.preIn[k] else p.data[o])
    ensures Consistent(p, s')
  {
    InputReaders(p.g, k);
    InputTie(p.g, k);
    forall i
      ensures InCellOK(p, s', i)
    {
      if i in p.g.source && HasWorkload(p.g, i.layer) {
        assert InCellOK(p, s, i) && p.g.SourceOK(i);
        InputHandle(p, s, s', k, imported, o, p.g.source[i]);
        ReaderCells(p.g, p.queue, p.g.Sinks(o), i);
        SinksAreReaders(p.g, o);
      }
    }
    forall q
      ensures OutCellOK(p, s', q)
    {
      if p.g.IsOut(q) && HasWorkload(p.g, q.layer) {
        assert OutCellOK(p, s, q);
        InputHandle(p, s, s', k, imported, o, q);
      }
    }
  }

  /** An Input is read by layers with workloads only. */
  lemma {:induction false} InputReaders(g: Net, k: nat)
    requires Runnable(g) && k < Inputs(g)
    ensures k < |g.layers|
    ensures forall i :: i in g.Sinks(OutSlot(g.layers[k], 0)) ==> HasWorkload(g, i.layer)
  {
    InputTie(g, k);
    var o := OutSlot(g.layers[k], 0);
    assert g.SinksOK(o);
    forall i | i in g.Sinks(o)
      ensures HasWorkload(g, i.layer)
    {
      assert g.SourceOK(i);
      assert g.info[i.layer].kind.Output? ==> i == InSlot(i.layer, 0) && Lone(g, i.layer);
    }
  }

  /** The input part of one step of the walk: the handles of the k-th input are swapped in or out if need be. */
  method SwitchInput(p: Plan, s: State, k: nat, imported: bool) returns (s': State)
    requires p.Valid() && Consistent(p, s) && k < Inputs(p.g)
    ensures Consistent(p, s') && s'.isIn == s.isIn[k := imported] && s'.isOut == s.isOut
  {
    InputTie(p.g, k);
    var l := p.g.layers[k];
    var o := OutSlot(l, 0);
    assert InputEntry(p.g, p.inputPairs, l) && p.g.IsOut(o);
    s' := s;
    if imported != s.isIn[k] {
      var cells := p.inputPairs[p.g.info[l].bindingId];
      InputCellsInside(p, k);
      var ins := ReplaceInputs(p.queue, s.ins, cells, if imported then p.preIn[k] else p.data[o]);
      s' := s.(ins := ins, isIn := s.isIn[k := imported]);
      InputSwitched(p, s, s', k, imported, o);
    }
  }

  lemma {:induction false} InputCellsInside(p: Plan, k: nat)
    requires p.Valid() && k < Inputs(p.g)
    ensures k < |p.g.layers|
    ensures forall c :: c in InCells(p.g, p.g.Sinks(OutSlot(p.g.layers[k], 0))) ==> c.workload < |p.queue|
  {
    InputReaders(p.g, k);
    CellsInside(p.g, p.queue, p.g.Sinks(OutSlot(p.g.layers[k], 0)));
  }

  lemma {:induction false} CellsInside(g: Net, queue: seq<LayerId>, s: seq<InSlot>)
    requires g.Valid() && Partitioned(g) && QueueOK(g, queue) && forall i :: i in s ==> HasWorkload(g, i.layer)
    ensures forall c :: c in InCells(g, s) ==> c.workload < |queue|
  {
    forall c | c in InCells(g, s)
      ensures c.workload < |queue|
    {
      var n := IndexOf(InCells(g, s), c);
      assert s[n] in s;
      WorkloadFound(g, queue, s[n].layer);
    }
  }

  lemma {:induction false} OutputHandle(p: Plan, s: State, s': State, m: nat, imported: bool, o: OutSlot, q: OutSlot)
    requires |p.preOut| == |s.isOut| && m < |s.isOut| && s'.isOut == s.isOut[m := imported] && s'.isIn == s.isIn
    requires TieOf(p.g, o) == OutputNo(m) && o in p.data
    requires TieOf(p.g, q) == OutputNo(m) ==> q == o
    ensures HandleOf(p, s', q) == if q == o then (if imported then p.preOut[m] else p.data[o]) else HandleOf(p, s, q)
  {
    HeldSwitched(p, s, s', m, imported, TieOf(p.g, q), if q in p.data then p.data[q] else 0);
  }

  lemma {:induction false} HeldSwitched(p: Plan, s: State, s': State, m: nat, imported: bool, t: Tie, own: Handle)
    requires |p.preOut| == |s.isOut| && m < |s.isOut| && s'.isOut == s.isOut[m := imported] && s'.isIn == s.isIn
    ensures Held(p, s', t, own) == if t == OutputNo(m) then (if imported then p.preOut[m] else own) else Held(p, s, t, own)
  {
  }

  /** Switching all workload slots tied to an output keeps the network consistent. */
  lemma {:induction false} OutputSwitched(p: Plan, s: State, s': State, m: nat, imported: bool, o: OutSlot)
    requires p.Valid() && Consistent(p, s) && m < Bound(p.g, 2) && OnlyTied(p.g, m, o) && o in p.data
    requires s' == s.(ins := s'.ins, outs := s.outs[OutCell(p.g, o) := HandleOf(p, s', o)], isOut := s.isOut[m := imported])
    requires HasWorkload(p.g, o.layer)
    requires Replaced(s.ins, s'.ins, InCells(p.g, Consumers(p.g, p.g.Sinks(o))), HandleOf(p, s', o))
    ensures Consistent(p, s')
  {
    ConsumersMembers(p.g, p.g.Sinks(o));
    ConsumersHaveWorkloads(p.g, o);
    forall i
      ensures InCellOK(p, s', i)
    {
      if i in p.g.source && HasWorkload(p.g, i.layer) {
        assert InCellOK(p, s, i) && p.g.SourceOK(i);
        OutputHandle(p, s, s', m, imported, o, p.g.source[i]);
        ReaderCells(p.g, p.queue, Consumers(p.g, p.g.Sinks(o)), i);
        SinksAreReaders(p.g, o);
      }
    }
    forall q
      ensures OutCellOK(p, s', q)
    {
      if p.g.IsOut(q) && HasWorkload(p.g, q.layer) {
        assert OutCellOK(p, s, q);
        OutputHandle(p, s, s', m, imported, o, q);
        CellsDiffer(p.g, p.queue, o.layer, q.layer);
      }
    }
  }

  lemma {:induction false} ConsumersHaveWorkloads(g: Net, o: OutSlot)
    requires g.Valid()
    ensures forall i :: i in Consumers(g, g.Sinks(o)) ==> HasWorkload(g, i.layer)
  {
    ConsumersMembers(g, g.Sinks(o));
    assert g.SinksOK(o);
    forall i | i in Consumers(g, g.Sinks(o))
      ensures HasWorkload(g, i.layer)
    {
      assert g.SourceOK(i);
    }
  }

  lemma {:induction false} OutputFacts(p: Plan, m: nat, k: nat)
    requires p.Valid() && m < Bound(p.g, 2) && k == FirstOutput(p.g) + m
    ensures k < |p.g.layers|
    ensures var l := p.g.layers[k];
      && OutputEntry(p.g, p.outputPairs, l)
      && var o := p.g.source[InSlot(l, 0)];
         OnlyTied(p.g, m, o) && o in p.data && HasWorkload(p.g, o.layer)
  {
    OutputTie(p.g, m, k);
    var l := p.g.layers[k];
    assert OutputEntry(p.g, p.outputPairs, l) && p.g.SourceOK(InSlot(l, 0)) && Lone(p.g, l);
  }

  /** The output part of one step of the walk, for the Output at position k. */
  method SwitchOutput(p: Plan, s: State, m: nat, k: nat, imported: bool) returns (s': State)
    requires p.Valid() && Consistent(p, s) && m < Bound(p.g, 2) && k == FirstOutput(p.g) + m
    ensures Consistent(p, s') && s'.isOut == s.isOut[m := imported] && s'.isIn == s.isIn
  {
    if imported == s.isOut[m] {
      return s;
    }
    OutputFacts(p, m, k);
    var l := p.g.layers[k];
    s' := ReplaceOutput(p, s, p.outputPairs[p.g.info[l].bindingId], m, imported, p.g.source[InSlot(l, 0)]);
  }

  method ReplaceOutput(p: Plan, s: State, cells: OutputIndices, m: nat, imported: bool, o: OutSlot) returns (s': State)
    requires p.Valid() && Consistent(p, s) && m < Bound(p.g, 2) && OnlyTied(p.g, m, o) && o in p.data
    requires HasWorkload(p.g, o.layer)
    requires cells == OutputIndices(OutCell(p.g, o), InCells(p.g, Consumers(p.g, p.g.Sinks(o))))
    ensures Consistent(p, s') && s'.isOut == s.isOut[m := imported] && s'.isIn == s.isIn
  {
    var h := if imported then p.preOut[m] else p.data[o];
    ConsumersHaveWorkloads(p.g, o);
    CellsInside(p.g, p.queue, Consumers(p.g, p.g.Sinks(o)));
    WorkloadFound(p.g, p.queue, o.layer);
    assert cells.produced.workload < |p.queue|;
    var ins := ReplaceInputs(p.queue, s.ins, cells.consumed, h);
    s' := State(ins, s.outs[cells.produced := h], s.isIn, s.isOut[m := imported]);
    OutputHandle(p, s, s', m, imported, o, o);
    OutputSwitched(p, s, s', m, imported, o);
  }

  /** How many ids the walk over a list of ids can use: up to the first one that is not larger than its predecessor. */
  ghost function StrictLen(s: seq<nat>): (n: nat)
    ensures n <= |s|
  {
    if |s| <= 1 then |s|
    else
      var n := StrictLen(s[..|s| - 1]);
      if n == |s| - 1 && s[|s| - 2] < s[|s| - 1] then |s| else n
  }

  lemma {:induction false} StrictPrefix(s: seq<nat>)
    ensures forall x, y :: 0 <= x < y < StrictLen(s) ==> s[x] < s[y]
    ensures StrictLen(s) < |s| ==> 0 < StrictLen(s) && s[StrictLen(s)] <= s[StrictLen(s) - 1]
  {
    if |s| > 1 {
      var t := s[..|s| - 1];
      StrictPrefix(t);
      assert StrictLen(s) == |s| ==> StrictLen(t) == |t| && t[|t| - 1] < s[|s| - 1];
      assert StrictLen(t) == |t| ==> t[|t| - 1] == s[|s| - 2];
    }
  }

  /** The ids that the walk over the sorted list picks. */
  ghost function Served(s: seq<nat>): seq<nat> {
    s[..StrictLen(s)]
  }

  /** An id is repeated below x. */
  ghost predicate RepeatedBelow(s: seq<nat>, x: nat) {
    exists n :: 0 <= n < |s| - 1 && s[n] == s[n + 1] && s[n] < x
  }

  /** The walk picks an id exactly when no smaller id occurs twice. */
  lemma {:induction false} ServedExactly(s: seq<nat>, x: nat)
    requires NonDecreasing(s) && x in s
    ensures x in Served(s) <==> !RepeatedBelow(s, x)
  {
    StrictPrefix(s);
    var k := IndexOf(s, x);
    if k < StrictLen(s) {
      assert Served(s)[k] == x;
      forall n | 0 <= n < |s| - 1 && s[n] == s[n + 1]
        ensures x <= s[n]
      {
      }
    } else {
      var n := StrictLen(s) - 1;
      assert s[n] == s[n + 1] && s[n] != x;
    }
  }

  /** Where x goes in an ascending list: behind the last number that is not larger. */
  method Place(s: seq<nat>, x: nat) returns (k: nat)
    requires NonDecreasing(s)
    ensures k <= |s| && NonDecreasing(InsertAt(s, k, x))
  {
    k := |s|;
    while k > 0 && s[k - 1] > x
      invariant k <= |s| && forall j :: k <= j < |s| ==> x < s[j]
    {
      k := k - 1;
    }
    InsertKeepsOrder(s, k, x);
  }

  lemma {:induction false} IdPlaced(ids: seq<nat>, n: nat, s: seq<nat>, k: nat)
    requires n < |ids| && multiset(s) == multiset(ids[..n]) && k <= |s|
    ensures multiset(InsertAt(s, k, ids[n])) == multiset(ids[..n + 1])
  {
    assert s == s[..k] + s[k..];
    assert ids[..n + 1] == ids[..n] + [ids[n]];
  }

  method SortIds(ids: seq<nat>) returns (s: seq<nat>)
    ensures SortedIds(s, ids)
  {
    s := [];
    var n := 0;
    while n < |ids|
      invariant n <= |ids| && SortedIds(s, ids[..n])
    {
      var k := Place(s, ids[n]);
      IdPlaced(ids, n, s, k);
      s := InsertAt(s, k, ids[n]);
      n := n + 1;
    }
    assert ids[..n] == ids;
  }

  /** The first n flags say which of the first n numbers are among the ids used so far; j ids have been used. */
  ghost predicate FlagsOK(flags: seq<bool>, s: seq<nat>, n: nat, j: nat) {
    && n <= |flags| && j <= StrictLen(s)
    && (forall x :: 0 <= x < j ==> s[x] < n)
    && (j < StrictLen(s) ==> n <= s[j])
    && (forall x :: 0 <= x < n ==> (flags[x] <==> x in s[..j]))
  }

  lemma {:induction false} FlagsNext(flags: seq<bool>, s: seq<nat>, n: nat, j: nat, next: nat, after: nat)
    requires FlagsOK(flags, s, n, j) && n < |flags| && next == n + 1 && after == j + 1
    ensures j < |s| && s[j] == n ==> FlagsOK(flags[n := true], s, next, after)
    ensures !(j < |s| && s[j] == n) ==> FlagsOK(flags[n := false], s, next, j)
  {
    StrictPrefix(s);
    if j < |s| && s[j] == n {
      assert s[..j + 1] == s[..j] + [s[j]];
      assert j < StrictLen(s);
    }
    assert n !in s[..j];
  }

  lemma {:induction false} FlagsDone(flags: seq<bool>, s: seq<nat>, j: nat)
    requires FlagsOK(flags, s, |flags|, j)
    ensures Follows(flags, s)
  {
    StrictPrefix(s);
    forall x | 0 <= x < |flags|
      ensures x in s[..j] <==> x in Served(s)
    {
      if x in Served(s) {
        var k := IndexOf(Served(s), x);
        assert s[k] == x;
        assert k < j ==> s[..j][k] == x;
      }
      if x in s[..j] {
        assert Served(s)[IndexOf(s[..j], x)] == x;
      }
    }
  }

  /** The next number is picked exactly if it is the next id. */
  lemma {:induction false} PickedNext(flags: seq<bool>, s: seq<nat>, n: nat, j: nat)
    requires FlagsOK(flags, s, n, j) && n < |flags|
    ensures n in Served(s) <==> j < |s| && s[j] == n
  {
    StrictPrefix(s);
    if n in Served(s) {
      var k := IndexOf(Served(s), n);
      assert s[k] == n && k < StrictLen(s);
    }
    if j < |s| && s[j] == n {
      assert Served(s)[j] == n;
    }
  }

  /** Whether the layer at a position has a tensor given for its binding id. */
  ghost predicate HasTensor(g: Net, k: nat, provided: seq<int>) {
    k < |g.layers| && g.layers[k] in g.info && g.info[g.layers[k]].bindingId in provided
  }

  ghost predicate GivenAt(g: Net, picked: seq<nat>, first: nat, x: nat, provided: seq<int>) {
    x in picked || HasTensor(g, first + x, provided)
  }

  lemma {:induction false} GivenAtPosition(g: Net, picked: seq<nat>, first: nat, x: nat, k: nat, provided: seq<int>)
    requires k == first + x
    ensures GivenAt(g, picked, first, x, provided) <==> x in picked || HasTensor(g, k, provided)
  {
  }

  /** Of n layers in a row, from position first on, each is picked or has a tensor. */
  ghost predicate Given(g: Net, picked: seq<nat>, first: nat, n: nat, provided: seq<int>) {
    forall x: nat :: x < n ==> GivenAt(g, picked, first, x, provided)
  }

  lemma {:induction false} GivenNext(g: Net, picked: seq<nat>, first: nat, n: nat, provided: seq<int>)
    requires Given(g, picked, first, n, provided) && GivenAt(g, picked, first, n, provided)
    ensures Given(g, picked, first, n + 1, provided)
  {
  }

  lemma {:induction false} NotGiven(g: Net, picked: seq<nat>, first: nat, n: nat, provided: seq<int>, x: nat)
    requires x < n && !GivenAt(g, picked, first, x, provided)
    ensures !Given(g, picked, first, n, provided)
  {
  }

  /** One Input of the walk. */
  method StepInput(p: Plan, s: State, ids: seq<nat>, provided: seq<int>, k: nat, j: nat, ghost next: nat) returns (s': State, j': nat, ok: bool)
    requires p.Valid() && Consistent(p, s) && k < |s.isIn| && next == k + 1 && FlagsOK(s.isIn, ids, k, j)
    ensures Consistent(p, s') && s'.isOut == s.isOut && |s'.isIn| == |s.isIn|
    ensures ok ==> FlagsOK(s'.isIn, ids, next, j')
    ensures ok <==> GivenAt(p.g, Served(ids), 0, k, provided)
  {
    Sections(p.g);
    var after := j + 1;
    FlagsNext(s.isIn, ids, k, j, next, after);
    PickedNext(s.isIn, ids, k, j);
    if j < |ids| && k == ids[j] {
      s' := SwitchInput(p, s, k, true);
      return s', after, true;
    }
    s' := SwitchInput(p, s, k, false);
    return s', j, p.g.info[p.g.layers[k]].bindingId in provided;
  }

  /** The walk over the Inputs: those picked by the sorted ids are imported, the others are not and need a tensor. */
  method WalkInputs(p: Plan, s: State, ids: seq<nat>, provided: seq<int>) returns (s': State, ok: bool)
    requires p.Valid() && Consistent(p, s)
    ensures Consistent(p, s') && s'.isOut == s.isOut && |s'.isIn| == |s.isIn|
    ensures ok ==> Follows(s'.isIn, ids)
    ensures ok <==> Given(p.g, Served(ids), 0, |s.isIn|, provided)
  {
    s' := s;
    var k: nat, j: nat := 0, 0;
    while k < |s.isIn|
      invariant k <= |s.isIn| && Consistent(p, s') && s'.isOut == s.isOut && |s'.isIn| == |s.isIn|
      invariant FlagsOK(s'.isIn, ids, k, j) && Given(p.g, Served(ids), 0, k, provided)
    {
      var next := k + 1;
      s', j, ok := StepInput(p, s', ids, provided, k, j, next);
      if !ok {
        NotGiven(p.g, Served(ids), 0, |s.isIn|, provided, k);
        return;
      }
      GivenNext(p.g, Served(ids), 0, k, provided);
      k := next;
    }
    FlagsDone(s'.isIn, ids, j);
    ok := true;
  }

  /** WorkloadData::GetOutputTensorPin for the k-th Output. */
  method OutputGiven(p: Plan, s: State, ghost picked: seq<nat>, provided: seq<int>, k: nat) returns (ok: bool)
    requires p.Valid() && Consistent(p, s) && k < |s.isOut| && k !in picked
    ensures ok <==> GivenAt(p.g, picked, FirstOutput(p.g), k, provided)
  {
    Sections(p.g);
    var n: nat := |p.g.layers| - |s.isOut| + k;
    GivenAtPosition(p.g, picked, FirstOutput(p.g), k, n, provided);
    ok := p.g.info[p.g.layers[n]].bindingId in provided;
  }

  /** One Output of the walk. */
  method StepOutput(p: Plan, s: State, ids: seq<nat>, provided: seq<int>, k: nat, j: nat, ghost next: nat) returns (s': State, j': nat, ok: bool)
    requires p.Valid() && Consistent(p, s) && k < |s.isOut| && next == k + 1 && FlagsOK(s.isOut, ids, k, j)
    ensures Consistent(p, s') && s'.isIn == s.isIn && |s'.isOut| == |s.isOut|
    ensures ok ==> FlagsOK(s'.isOut, ids, next, j')
    ensures ok <==> GivenAt(p.g, Served(ids), FirstOutput(p.g), k, provided)
  {
    var after := j + 1;
    FlagsNext(s.isOut, ids, k, j, next, after);
    PickedNext(s.isOut, ids, k, j);
    var n: nat := |p.g.layers| - |s.isOut| + k;
    if j < |ids| && k == ids[j] {
      s' := SwitchOutput(p, s, k, n, true);
      return s', after, true;
    }
    s' := SwitchOutput(p, s, k, n, false);
    ok := OutputGiven(p, s, Served(ids), provided, k);
    return s', j, ok;
  }

  /** The same for the Outputs. */
  method WalkOutputs(p: Plan, s: State, ids: seq<nat>, provided: seq<int>) returns (s': State, ok: bool)
    requires p.Valid() && Consistent(p, s)
    ensures Consistent(p, s') && s'.isIn == s.isIn && |s'.isOut| == |s.isOut|
    ensures ok ==> Follows(s'.isOut, ids)
    ensures ok <==> Given(p.g, Served(ids), FirstOutput(p.g), |s.isOut|, provided)
  {
    s' := s;
    var k: nat, j: nat := 0, 0;
    while k < |s.isOut|
      invariant k <= |s.isOut| && Consistent(p, s') && s'.isIn == s.isIn && |s'.isOut| == |s.isOut|
      invariant FlagsOK(s'.isOut, ids, k, j) && Given(p.g, Served(ids), FirstOutput(p.g), k, provided)
    {
      var next := k + 1;
      s', j, ok := StepOutput(p, s', ids, provided, k, j, next);
      if !ok {
        NotGiven(p.g, Served(ids), FirstOutput(p.g), |s.isOut|, provided, k);
        return;
      }
      GivenNext(p.g, Served(ids), FirstOutput(p.g), k, provided);
      k := next;
    }
    FlagsDone(s'.isOut, ids, j);
    ok := true;
  }

  ghost predicate SortedIds(s: seq<nat>, ids: seq<nat>) {
    NonDecreasing(s) && multiset(s) == multiset(ids)
  }

  ghost predicate Follows(flags: seq<bool>, s: seq<nat>) {
    forall x :: 0 <= x < |flags| ==> (flags[x] <==> x in Served(s))
  }

  /** x is among the ids and no smaller id is repeated. */
  ghost predicate Picked(ids: seq<nat>, x: nat) {
    x in ids && forall y :: y in ids && y < x ==> multiset(ids)[y] == 1
  }

  /** The flags are those of the ids that the walk picks. */
  ghost predicate Picks(flags: seq<bool>, ids: seq<nat>) {
    forall x :: 0 <= x < |flags| ==> (flags[x] <==> Picked(ids, x))
  }

  /** Of n layers in a row, from position first on, each is picked by the ids or has a tensor. */
  ghost predicate AllGiven(g: Net, ids: seq<nat>, first: nat, n: nat, provided: seq<int>) {
    forall x: nat :: x < n ==> Picked(ids, x) || HasTensor(g, first + x, provided)
  }

  lemma {:induction false} BindingsFromIds(g: Net, rank: nat, ids: set<int>)
    requires g.Listed() && IdsMatch(g.layers, g.info, rank, ids)
    ensures BindingsDiffer(g, rank)
  {
    forall a, b | a in g.info && b in g.info && g.info[a].Rank() == rank && g.info[b].Rank() == rank && g.info[a].bindingId == g.info[b].bindingId
      ensures a == b
    {
      assert a in g.layers && b in g.layers;
      IdsDiffer(g.layers, g.info, rank, ids, a, b);
    }
  }

  /** The queue and the tables that the constructor of LoadedNetwork builds. */
  method MakePlan(graph: Graph, data: map<OutSlot, Handle>, preIn: seq<Handle>, preOut: seq<Handle>) returns (plan: Plan)
    requires graph.Valid() && Sorted(graph.Snapshot()) && forall i :: graph.Snapshot().IsIn(i) ==> i in graph.source
    requires forall o :: graph.Snapshot().IsOut(o) ==> o in data
    ensures plan.Built() && plan.g == graph.Snapshot() && plan.data == data && plan.preIn == preIn && plan.preOut == preOut
    ensures BindingsDiffer(plan.g, 0)
  {
    var g := graph.Snapshot();
    IdsSize(g, 0, graph.inputIds);
    IdsSize(g, 2, graph.outputIds);
    BindingsFromIds(g, 0, graph.inputIds);
    BindingsFromIds(g, 2, graph.outputIds);
    var queue := BuildQueue(g);
    var inputPairs := BuildInputPairs(g, |graph.inputIds|);
    var outputPairs := BuildOutputPairs(graph, |graph.inputIds|, |graph.outputIds|);
    plan := Plan(g, queue, inputPairs, outputPairs, data, preIn, preOut);
  }

  /** Every workload slot holds the handle of the output slot it writes or reads. */
  ghost predicate OwnHandles(p: Plan, ins: map<Cell, Handle>, outs: map<Cell, Handle>) {
    && (forall i :: i in p.g.source && HasWorkload(p.g, i.layer) && p.g.source[i] in p.data ==>
          InCell(p.g, i) in ins && ins[InCell(p.g, i)] == p.data[p.g.source[i]])
    && (forall o :: o in p.data && HasWorkload(p.g, o.layer) ==> OutCell(p.g, o) in outs && outs[OutCell(p.g, o)] == p.data[o])
  }

  /** Slot number k of workload v is among the slots of the first w workloads and the first c slots of the next. */
  predicate Within(v: nat, k: nat, w: nat, c: nat) {
    v < w || (v == w && k < c)
  }

  /** That many input slots of workloads hold the graph's own handles. */
  ghost predicate WiredIn(p: Plan, ins: map<Cell, Handle>, w: nat, c: nat) {
    forall i :: InWired(p, ins, w, c, i)
  }

  ghost predicate InWired(p: Plan, ins: map<Cell, Handle>, w: nat, c: nat, i: InSlot) {
    (i in p.g.source && HasWorkload(p.g, i.layer) && p.g.source[i] in p.data && Within(WorkloadOf(p.g, i.layer), i.index, w, c)) ==>
      InCell(p.g, i) in ins && ins[InCell(p.g, i)] == p.data[p.g.source[i]]
  }

  ghost predicate WiredOut(p: Plan, outs: map<Cell, Handle>, w: nat, c: nat) {
    forall o :: OutWired(p, outs, w, c, o)
  }

  ghost predicate OutWired(p: Plan, outs: map<Cell, Handle>, w: nat, c: nat, o: OutSlot) {
    (o in p.data && HasWorkload(p.g, o.layer) && Within(WorkloadOf(p.g, o.layer), o.index, w, c)) ==>
      OutCell(p.g, o) in outs && outs[OutCell(p.g, o)] == p.data[o]
  }

  /** The layer with workload w. */
  lemma {:induction false} WorkloadsLayer(p: Plan, w: nat)
    requires p.Built() && w < |p.queue|
    ensures HasWorkload(p.g, p.queue[w]) && WorkloadOf(p.g, p.queue[w]) == w
    ensures forall l :: HasWorkload(p.g, l) && WorkloadOf(p.g, l) == w ==> l == p.queue[w]
  {
    Sections(p.g);
    IndexOfUnique(p.g.layers, Inputs(p.g) + w);
    forall l | HasWorkload(p.g, l) && WorkloadOf(p.g, l) == w
      ensures l == p.queue[w]
    {
      WorkloadFound(p.g, p.queue, l);
    }
  }

  lemma {:induction false} InWiredNext(p: Plan, ins: map<Cell, Handle>, w: nat, c: nat, x: InSlot, i: InSlot)
    requires x in p.g.source && x.index == c && p.g.source[x] in p.data && InWired(p, ins, w, c, i)
    requires HasWorkload(p.g, i.layer) && WorkloadOf(p.g, i.layer) == w ==> i.layer == x.layer
    ensures InWired(p, ins[Cell(w, c) := p.data[p.g.source[x]]], w, c + 1, i)
  {
    assert i.layer == x.layer && i.index == c ==> i == x;
  }

  lemma {:induction false} WiredInNext(p: Plan, ins: map<Cell, Handle>, w: nat, c: nat, c': nat, ins': map<Cell, Handle>)
    requires p.Built() && w < |p.queue| && InSlot(p.queue[w], c) in p.g.source && p.g.source[InSlot(p.queue[w], c)] in p.data
    requires WiredIn(p, ins, w, c) && c' == c + 1 && ins' == ins[Cell(w, c) := p.data[p.g.source[InSlot(p.queue[w], c)]]]
    ensures WiredIn(p, ins', w, c')
  {
    WorkloadsLayer(p, w);
    forall i
      ensures InWired(p, ins', w, c', i)
    {
      assert InWired(p, ins, w, c, i);
      InWiredNext(p, ins, w, c, InSlot(p.queue[w], c), i);
    }
  }

  lemma {:induction false} WiredOutNext(p: Plan, outs: map<Cell, Handle>, w: nat, c: nat)
    requires p.Built() && w < |p.queue| && OutSlot(p.queue[w], c) in p.data && WiredOut(p, outs, w, c)
    ensures WiredOut(p, outs[Cell(w, c) := p.data[OutSlot(p.queue[w], c)]], w, c + 1)
  {
    WorkloadsLayer(p, w);
    var outs', c' := outs[Cell(w, c) := p.data[OutSlot(p.queue[w], c)]], c + 1;
    forall o
      ensures OutWired(p, outs', w, c', o)
    {
      assert OutWired(p, outs, w, c, o);
    }
  }

  lemma {:induction false} WorkloadInWired(p: Plan, ins: map<Cell, Handle>, w: nat, w': nat)
    requires p.Built() && w < |p.queue| && w' == w + 1 && p.queue[w] in p.g.info && WiredIn(p, ins, w, p.g.info[p.queue[w]].numIn)
    ensures WiredIn(p, ins, w', 0)
  {
    WorkloadsLayer(p, w);
    forall i
      ensures InWired(p, ins, w', 0, i)
    {
      assert p.g.SourceOK(i);
      assert InWired(p, ins, w, p.g.info[p.queue[w]].numIn, i);
      InWiredAll(p, ins, w, w', p.queue[w], i);
    }
  }

  lemma {:induction false} InWiredAll(p: Plan, ins: map<Cell, Handle>, w: nat, w': nat, l: LayerId, i: InSlot)
    requires l in p.g.info && w' == w + 1 && InWired(p, ins, w, p.g.info[l].numIn, i) && p.g.SourceOK(i)
    requires HasWorkload(p.g, i.layer) && WorkloadOf(p.g, i.layer) == w ==> i.layer == l
    ensures InWired(p, ins, w', 0, i)
  {
  }

  lemma {:induction false} WorkloadOutWired(p: Plan, outs: map<Cell, Handle>, w: nat, w': nat)
    requires p.Built() && w < |p.queue| && w' == w + 1 && p.queue[w] in p.g.info && (forall o :: o in p.data ==> p.g.IsOut(o))
    requires WiredOut(p, outs, w, p.g.info[p.queue[w]].numOut)
    ensures WiredOut(p, outs, w', 0)
  {
    WorkloadsLayer(p, w);
    forall o
      ensures OutWired(p, outs, w', 0, o)
    {
      assert OutWired(p, outs, w, p.g.info[p.queue[w]].numOut, o);
    }
  }

  /** The slots of one workload, as Layer::CollectWorkloadInputs and CollectWorkloadOutputs list them. */
  method CollectHandles(p: Plan, ins: map<Cell, Handle>, outs: map<Cell, Handle>, w: nat, ghost next: nat)
    returns (ins': map<Cell, Handle>, outs': map<Cell, Handle>)
    requires p.Built() && w < |p.queue| && next == w + 1 && forall o :: o in p.data ==> p.g.IsOut(o)
    requires WiredIn(p, ins, w, 0) && WiredOut(p, outs, w, 0)
    ensures WiredIn(p, ins', next, 0) && WiredOut(p, outs', next, 0)
  {
    WorkloadsLayer(p, w);
    var l := p.queue[w];
    ins', outs' := ins, outs;
    var c := 0;
    while c < p.g.info[l].numIn
      invariant c <= p.g.info[l].numIn && WiredIn(p, ins', w, c)
    {
      var i := InSlot(l, c);
      assert p.g.IsIn(i) && p.g.SourceOK(i);
      ghost var before := ins';
      ins' := ins'[Cell(w, c) := p.data[p.g.source[i]]];
      WiredInNext(p, before, w, c, c + 1, ins');
      c := c + 1;
    }
    var j := 0;
    while j < p.g.info[l].numOut
      invariant j <= p.g.info[l].numOut && WiredOut(p, outs', w, j)
    {
      assert p.g.IsOut(OutSlot(l, j));
      WiredOutNext(p, outs', w, j);
      outs' := outs'[Cell(w, j) := p.data[OutSlot(l, j)]];
      j := j + 1;
    }
    WorkloadInWired(p, ins', w, next);
    WorkloadOutWired(p, outs', w, next);
  }

  /** The constructor's workloads, in the order of the queue. */
  method CreateWorkloads(p: Plan) returns (ins: map<Cell, Handle>, outs: map<Cell, Handle>)
    requires p.Built() && forall o :: o in p.data ==> p.g.IsOut(o)
    ensures OwnHandles(p, ins, outs)
  {
    ins, outs := map[], map[];
    NothingWired(p);
    var w := 0;
    while w < |p.queue|
      invariant w <= |p.queue| && WiredIn(p, ins, w, 0) && WiredOut(p, outs, w, 0)
    {
      var next := w + 1;
      ins, outs := CollectHandles(p, ins, outs, w, next);
      w := next;
    }
    AllWired(p, ins, outs);
  }

  lemma {:induction false} NothingWired(p: Plan)
    ensures WiredIn(p, map[], 0, 0) && WiredOut(p, map[], 0, 0)
  {
  }

  lemma {:induction false} AllWired(p: Plan, ins: map<Cell, Handle>, outs: map<Cell, Handle>)
    requires p.Built() && WiredIn(p, ins, |p.queue|, 0) && WiredOut(p, outs, |p.queue|, 0)
    ensures OwnHandles(p, ins, outs)
  {
    forall l | HasWorkload(p.g, l)
      ensures WorkloadOf(p.g, l) < |p.queue|
    {
      WorkloadFound(p.g, p.queue, l);
    }
    forall i | i in p.g.source && HasWorkload(p.g, i.layer) && p.g.source[i] in p.data
      ensures InCell(p.g, i) in ins && ins[InCell(p.g, i)] == p.data[p.g.source[i]]
    {
      assert InWired(p, ins, |p.queue|, 0, i);
    }
    forall o | o in p.data && HasWorkload(p.g, o.layer)
      ensures OutCell(p.g, o) in outs && outs[OutCell(p.g, o)] == p.data[o]
    {
      assert OutWired(p, outs, |p.queue|, 0, o);
    }
  }

  lemma {:induction false} OwnIsConsistent(p: Plan, s: State)
    requires p.Valid() && OwnHandles(p, s.ins, s.outs)
    requires |s.isIn| == |p.preIn| && |s.isOut| == |p.preOut|
    requires (forall k :: 0 <= k < |s.isIn| ==> !s.isIn[k]) && (forall k :: 0 <= k < |s.isOut| ==> !s.isOut[k])
    ensures Consistent(p, s)
  {
    forall i
      ensures InCellOK(p, s, i)
    {
      assert p.g.SourceOK(i);
      if i in p.g.source {
        NothingImported(p, s, p.g.source[i]);
      }
    }
    forall o
      ensures OutCellOK(p, s, o)
    {
      NothingImported(p, s, o);
    }
  }

  lemma {:induction false} NothingImported(p: Plan, s: State, o: OutSlot)
    requires (forall k :: 0 <= k < |s.isIn| ==> !s.isIn[k]) && (forall k :: 0 <= k < |s.isOut| ==> !s.isOut[k])
    ensures HandleOf(p, s, o) == if o in p.data then p.data[o] else 0
  {
  }

  /** A loaded network that is executed by EnqueueWorkload. */
  class Network {
    const plan: Plan
    var inputHandles: map<Cell, Handle>
    var outputHandles: map<Cell, Handle>
    var isInputImported: seq<bool>
    var isOutputImported: seq<bool>

    function Current(): State
      reads this
    {
      State(inputHandles, outputHandles, isInputImported, isOutputImported)
    }

    ghost predicate Valid()
      reads this
    {
      plan.Valid() && BindingsDiffer(plan.g, 0) && Consistent(plan, Current())
    }

    /** After loading, all workloads hold the graph's own handles and nothing is imported. */
    constructor (plan: Plan)
      requires plan.Valid() && BindingsDiffer(plan.g, 0) && forall o :: o in plan.data ==> plan.g.IsOut(o)
      ensures Valid() && this.plan == plan && HandlesRight(plan, Current())
      ensures forall k :: 0 <= k < |isInputImported| ==> !isInputImported[k]
      ensures forall k :: 0 <= k < |isOutputImported| ==> !isOutputImported[k]
    {
      this.plan := plan;
      var ins, outs := CreateWorkloads(plan);
      inputHandles, outputHandles := ins, outs;
      isInputImported, isOutputImported := seq(|plan.preIn|, _ => false), seq(|plan.preOut|, _ => false);
      new;
      OwnIsConsistent(plan, Current());
      ConsistentExactly(plan, Current());
    }

    method Become(s: State)
      requires plan.Valid() && BindingsDiffer(plan.g, 0) && Consistent(plan, s)
      modifies this
      ensures Valid() && Current() == s && HandlesRight(plan, s)
    {
      ConsistentExactly(plan, s);
      inputHandles, outputHandles, isInputImported, isOutputImported := s.ins, s.outs, s.isIn, s.isOut;
      assert Current() == s;
    }

    /** EnqueueWorkload up to the execution. A tensor is given by the binding id it is for. The call succeeds exactly if the
        numbers of inputs and outputs fit and every Input and Output that is not picked as imported has a tensor; then the
        ids of imported inputs are all different and in range, and all of them have been picked. */
    method EnqueueWorkload(inputTensors: seq<int>, outputTensors: seq<int>, importedInputs: seq<nat>, importedOutputs: seq<nat>)
      returns (r: Result<bool>)
      requires Valid()
      modifies this
      ensures Valid() && HandlesRight(plan, Current())
      ensures |plan.g.layers| < 2 ==> r == Ok(false) && Current() == old(Current())
      ensures |plan.g.layers| >= 2 && Inputs(plan.g) != |inputTensors| + |importedInputs| ==> r.Err? && Current() == old(Current())
      ensures |plan.g.layers| >= 2 ==> r.Err? || r == Ok(true)
      ensures |plan.g.layers| >= 2 ==> (r.Ok? <==>
        && Inputs(plan.g) == |inputTensors| + |importedInputs| && |importedOutputs| <= |isOutputImported|
        && AllGiven(plan.g, importedInputs, 0, |isInputImported|, inputTensors)
        && AllGiven(plan.g, importedOutputs, FirstOutput(plan.g), |isOutputImported|, outputTensors))
      ensures r == Ok(true) ==> Picks(isInputImported, importedInputs) && Picks(isOutputImported, importedOutputs)
      ensures r == Ok(true) ==> NoDup(importedInputs) && forall x :: x in importedInputs ==> x < |isInputImported| && isInputImported[x]
    {
      ConsistentExactly(plan, Current());
      if |plan.g.layers| < 2 {
        return Ok(false);
      }
      if |isInputImported| != |inputTensors| + |importedInputs| {
        return Err(InvalidArgument);
      }
      var ok := PrepareInputs(inputTensors, importedInputs);
      if !ok || |importedOutputs| > |isOutputImported| {
        return Err(InvalidArgument);
      }
      ok := PrepareOutputs(outputTensors, importedOutputs);
      if !ok {
        return Err(InvalidArgument);
      }
      return Ok(true);
    }

    method PrepareInputs(inputTensors: seq<int>, importedInputs: seq<nat>) returns (ok: bool)
      requires Valid() && |isInputImported| == |inputTensors| + |importedInputs|
      modifies this
      ensures Valid() && HandlesRight(plan, Current()) && isOutputImported == old(isOutputImported)
      ensures |isInputImported| == old(|isInputImported|)
      ensures ok <==> AllGiven(plan.g, importedInputs, 0, |isInputImported|, inputTensors)
      ensures ok ==> Picks(isInputImported, importedInputs) && NoDup(importedInputs)
      ensures ok ==> forall x :: x in importedInputs ==> x < |isInputImported| && isInputImported[x]
    {
      var s := SortIds(importedInputs);
      ghost var n := |isInputImported|;
      var state;
      state, ok := WalkInputs(plan, Current(), s, inputTensors);
      Become(state);
      GivenByIds(plan.g, s, importedInputs, 0, n, inputTensors);
      if ok {
        FlagsByIds(isInputImported, s, importedInputs);
        AllIdsUsed(plan.g, s, importedInputs, n, inputTensors);
        DistinctIdsPicked(isInputImported, importedInputs);
      }
    }

    method PrepareOutputs(outputTensors: seq<int>, importedOutputs: seq<nat>) returns (ok: bool)
      requires Valid()
      modifies this
      ensures Valid() && HandlesRight(plan, Current()) && isInputImported == old(isInputImported)
      ensures |isOutputImported| == old(|isOutputImported|)
      ensures ok <==> AllGiven(plan.g, importedOutputs, FirstOutput(plan.g), |isOutputImported|, outputTensors)
      ensures ok ==> Picks(isOutputImported, importedOutputs)
    {
      var s := SortIds(importedOutputs);
      ghost var n := |isOutputImported|;
      var state;
      state, ok := WalkOutputs(plan, Current(), s, outputTensors);
      Become(state);
      GivenByIds(plan.g, s, importedOutputs, FirstOutput(plan.g), n, outputTensors);
      if ok {
        FlagsByIds(isOutputImported, s, importedOutputs);
      }
    }
  }

  /** With distinct ids, exactly the given ones are picked. */
  lemma {:induction false} DistinctIdsPicked(flags: seq<bool>, ids: seq<nat>)
    requires NoDup(ids) && Picks(flags, ids)
    ensures forall x :: 0 <= x < |flags| ==> (flags[x] <==> x in ids)
  {
    assert forall x: nat :: x in ids ==> Picked(ids, x);
  }

  /** The walk over the sorted ids picks an id exactly when no smaller id was given twice. */
  lemma {:induction false} IdsPickedExactly(s: seq<nat>, ids: seq<nat>, x: nat)
    requires SortedIds(s, ids)
    ensures x in Served(s) <==> Picked(ids, x)
  {
    assert x in s <==> x in multiset(s);
    assert x in ids <==> x in multiset(ids);
    if x in s {
      ServedExactly(s, x);
      RepeatedTwice(s, x);
      assert forall y :: y in ids <==> y in multiset(ids);
      assert forall y :: y in s <==> y in multiset(s);
    }
    assert x in Served(s) ==> x in s;
  }

  /** With 0 given twice, 1 is not picked. */
  lemma {:induction false} RepeatedIdDropsOthers()
    ensures Served([0, 0, 1]) == [0] && !Picked([0, 0, 1], 1)
  {
    assert [0, 0, 1][..2] == [0, 0] && [0, 0][..1] == [0];
    assert StrictLen([0]) == 1 && StrictLen([0, 0]) == 1;
    IdsPickedExactly([0, 0, 1], [0, 0, 1], 1);
  }

  lemma {:induction false} FlagsByIds(flags: seq<bool>, s: seq<nat>, ids: seq<nat>)
    requires SortedIds(s, ids) && Follows(flags, s)
    ensures Picks(flags, ids)
  {
    forall x | 0 <= x < |flags|
      ensures flags[x] <==> Picked(ids, x)
    {
      IdsPickedExactly(s, ids, x);
    }
  }

  lemma {:induction false} GivenByIds(g: Net, s: seq<nat>, ids: seq<nat>, first: nat, n: nat, provided: seq<int>)
    requires SortedIds(s, ids)
    ensures Given(g, Served(s), first, n, provided) <==> AllGiven(g, ids, first, n, provided)
  {
    forall x: nat
      ensures GivenAt(g, Served(s), first, x, provided) <==> Picked(ids, x) || HasTensor(g, first + x, provided)
    {
      IdsPickedExactly(s, ids, x);
    }
  }

  /** If there are as many Inputs as tensors and ids together, and every Input that is not picked has a tensor, then
      every id has been used: binding ids differ, so no tensor serves two Inputs. */
  lemma {:induction false} AllIdsUsed(g: Net, s: seq<nat>, ids: seq<nat>, n: nat, provided: seq<int>)
    requires g.Valid() && Partitioned(g) && BindingsDiffer(g, 0) && SortedIds(s, ids)
    requires n == Inputs(g) == |provided| + |ids| && Given(g, Served(s), 0, n, provided)
    ensures NoDup(ids) && forall x :: x in ids ==> x < n
  {
    var rest := set x | x in Below(n) && x !in Served(s);
    RestHasTensors(g, rest, n, s, provided);
    assert |s| == |multiset(s)| == |multiset(ids)| == |ids|;
    AllServed(s, n, rest);
    StrictNoDup(s, ids);
    assert forall x :: x in ids <==> x in multiset(ids);
    assert forall x :: x in multiset(s) <==> x in s;
  }

  /** If at most n - |s| numbers below n are not picked, all of s is picked and below n. */
  lemma {:induction false} AllServed(s: seq<nat>, n: nat, rest: set<nat>)
    requires rest == (set x | x in Below(n) && x !in Served(s)) && |rest| + |s| <= n
    ensures StrictLen(s) == |s| && forall x :: x in s ==> x < n
  {
    var picked := set x | x in Below(n) && x in Served(s);
    assert picked + rest == Below(n) && picked !! rest;
    MembersAtMost(Served(s));
    SubsetSize(picked, Elems(Served(s)));
    assert Served(s) == s;
    SubsetEqual(picked, Elems(s));
    assert forall x :: x in s ==> x in Elems(s);
  }

  lemma {:induction false} SubsetEqual(a: set<nat>, b: set<nat>)
    requires a <= b && |b| <= |a|
    ensures a == b
  {
    assert b == a + (b - a);
    assert |b - a| == 0;
  }

  /** Strictly ascending ids are distinct. */
  lemma {:induction false} StrictNoDup(s: seq<nat>, ids: seq<nat>)
    requires SortedIds(s, ids) && StrictLen(s) == |s|
    ensures NoDup(ids)
  {
    StrictPrefix(s);
    NoDupIntro(s);
    forall x
      ensures x in ids ==> multiset(ids)[x] == 1
    {
      assert x in ids <==> x in multiset(ids);
      assert x in multiset(s) <==> x in s;
    }
  }

  ghost function BindingAt(g: Net, k: nat): int {
    if k < |g.layers| && g.layers[k] in g.info then g.info[g.layers[k]].bindingId else 0
  }

  lemma {:induction false} BindingsAtDiffer(g: Net, j: nat, k: nat)
    requires g.Valid() && Partitioned(g) && BindingsDiffer(g, 0) && j < Inputs(g) && k < Inputs(g)
    ensures BindingAt(g, j) == BindingAt(g, k) ==> j == k
  {
    Sections(g);
    assert g.layers[j] in g.info && g.layers[k] in g.info;
    IndexOfUnique(g.layers, j);
    IndexOfUnique(g.layers, k);
  }

  /** The Inputs in rest have different binding ids, each with a tensor. */
  lemma {:induction false} RestHasTensors(g: Net, rest: set<nat>, n: nat, s: seq<nat>, provided: seq<int>)
    requires g.Valid() && Partitioned(g) && BindingsDiffer(g, 0) && n == Inputs(g) && Given(g, Served(s), 0, n, provided)
    requires forall x :: x in rest ==> x < n && x !in Served(s)
    ensures |rest| <= |provided|
  {
    var m := map x | x in rest :: BindingAt(g, x);
    forall x | x in rest
      ensures m[x] in Elems(provided)
    {
      assert GivenAt(g, Served(s), 0, x, provided);
    }
    forall x, y | x in rest && y in rest && m[x] == m[y]
      ensures x == y
    {
      BindingsAtDiffer(g, x, y);
    }
    assert m.Keys == rest;
    InjectiveSize(m, Elems(provided));
    MembersAtMost(provided);
  }

  lemma {:induction false} RepeatedTwice(s: seq<nat>, x: nat)
    requires NonDecreasing(s)
    ensures RepeatedBelow(s, x) <==> exists y :: y in s && y < x && multiset(s)[y] != 1
  {
    if RepeatedBelow(s, x) {
      var n: nat :| n < |s| - 1 && s[n] == s[n + 1] && s[n] < x;
      NeighboursCount(s, n);
    }
    if y :| y in s && y < x && multiset(s)[y] != 1 {
      var n := RepeatedNeighbours(s, y);
    }
  }

  lemma {:induction false} NeighboursCount(s: seq<nat>, n: nat)
    requires n < |s| - 1 && s[n] == s[n + 1]
    ensures s[n] in s && multiset(s)[s[n]] > 1
  {
    assert s == s[..n] + [s[n], s[n + 1]] + s[n + 2..];
  }

  lemma {:induction false} RepeatedNeighbours(s: seq<nat>, y: nat) returns (n: nat)
    requires NonDecreasing(s) && y in s && multiset(s)[y] != 1
    ensures n < |s| - 1 && s[n] == s[n + 1] == y
  {
    n := IndexOf(s, y);
    var rest := s[n + 1..];
    assert s == s[..n] + [y] + rest;
    assert y !in s[..n];
    assert y in multiset(rest) && y in rest;
    var j := IndexOf(rest, y);
    assert s[n + 1 + j] == y && s[n] <= s[n + 1] <= s[n + 1 + j];
  }
}
