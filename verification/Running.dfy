/**
  Running the workloads of an asynchronous network: workload i reads and writes through descriptor i. Tensors that the user
  has imported may stand in for Inputs in the descriptors; a run with them is the same as one in which they are the memory
  of the Inputs' slots.
 */
module Running {
  import opened Sequences
  import opened NetGraph
  import opened Evaluation
  import opened Ordering
  import opened MemoryProfile
  import opened SharedMemory
  import opened WorkingMemHandle
  import opened Connections
  import opened Loading

  /** Which slots imported tensors stand in for, by the number of their handle. */
  type Lent = map<nat, OutSlot>

  /** The handles in the descriptors, and the contents of the imported tensors. */
  datatype Descriptors = Descriptors(inputs: map<Coord, Handle>, outputs: map<Coord, Handle>, values: map<nat, Value>)

  /** What is read through a handle. */
  function ReadHandle(y: Layout, s: Store, values: map<nat, Value>, h: Handle): Value {
    match h
    case Own(o) => Get(y, s, o)
    case Imported(n) => if n in values then values[n] else []
  }

  /** The slot that h was made for; no workload writes to an imported handle. */
  function SlotOf(h: Handle): OutSlot {
    match h
    case Own(o) => o
    case Imported(_) => OutSlot(0, 0)
  }

  /** The handle for readers of slot o. */
  ghost predicate StandsIn(lent: Lent, h: Handle, o: OutSlot) {
    match h
    case Own(p) => p == o && o !in lent.Values
    case Imported(n) => n in lent && lent[n] == o
  }

  ghost predicate InputsLent(g: Net, lent: Lent) {
    forall n :: n in lent ==> lent[n].layer in g.info && g.info[lent[n].layer].kind.Input?
  }

  /** The layout in which slots with a tensor that stands in have memory of their own. */
  ghost function Lend(y: Layout, lent: Lent): Layout {
    y.(at := y.at - lent.Values)
  }

  /** But for the slots with a tensor that stands in, t holds under Lend(y, lent) what s holds under y. */
  ghost predicate Alike(s: Store, t: Store, lent: Lent) {
    t.mem == s.mem && forall o :: o !in lent.Values ==> SameOwn(s, t, o)
  }

  ghost predicate SameOwn(s: Store, t: Store, o: OutSlot) {
    (o in t.own <==> o in s.own) && (o in t.own ==> t.own[o] == s.own[o])
  }

  /** In t those slots hold the contents of the tensors. */
  ghost predicate Filled(t: Store, lent: Lent, values: map<nat, Value>) {
    forall n :: n in lent ==> n in values && lent[n] in t.own && t.own[lent[n]] == values[n]
  }

  lemma {:induction false} GetAlike(y: Layout, s: Store, t: Store, lent: Lent, o: OutSlot)
    requires Alike(s, t, lent) && o !in lent.Values
    ensures Get(Lend(y, lent), t, o) == Get(y, s, o)
  {
    assert SameOwn(s, t, o);
  }

  /** Through a handle that stands in for o the run reads what is in o. */
  lemma {:induction false} ReadAlike(y: Layout, s: Store, t: Store, lent: Lent, values: map<nat, Value>, h: Handle, o: OutSlot)
    requires Alike(s, t, lent) && Filled(t, lent, values) && StandsIn(lent, h, o)
    ensures ReadHandle(y, s, values, h) == Get(Lend(y, lent), t, o)
  {
    match h
    case Own(_) => GetAlike(y, s, t, lent, o);
    case Imported(n) => assert lent[n] in lent.Values;
  }

  lemma {:induction false} PutAlike(y: Layout, s: Store, t: Store, lent: Lent, o: OutSlot, v: Value)
    requires Alike(s, t, lent) && o !in lent.Values && (o in y.at ==> y.at[o] + |v| <= |s.mem|)
    ensures Alike(Put(y, s, o, v), Put(Lend(y, lent), t, o, v), lent)
  {
    forall p | p !in lent.Values
      ensures SameOwn(Put(y, s, o, v), Put(Lend(y, lent), t, o, v), p)
    {
      assert SameOwn(s, t, p);
    }
  }

  lemma {:induction false} PutFilled(y: Layout, t: Store, lent: Lent, values: map<nat, Value>, o: OutSlot, v: Value)
    requires Filled(t, lent, values) && o !in lent.Values && (o in y.at ==> y.at[o] + |v| <= |t.mem|)
    ensures Filled(Put(y, t, o, v), lent, values)
  {
    forall n | n in lent
      ensures lent[n] != o
    {
      assert lent[n] in lent.Values;
    }
  }

  /** What the first layers contribute stands at the front of the queue. */
  lemma {:induction false} QueueGrows(g: Net, j: nat, k: nat)
    requires j <= k <= |g.layers|
    ensures QueueOf(g, g.layers[..j]) <= QueueOf(g, g.layers[..k])
  {
    if j < k {
      QueueGrows(g, j, k - 1);
      QueueUpTo(g, k - 1);
    }
  }

  /** Up to the Outputs the queue and the descriptors go in step. */
  lemma {:induction false} SameIndices(g: Net, k: nat)
    requires g.Valid() && Partitioned(g) && NoImports(g) && k <= FirstOutput(g)
    ensures k <= |g.layers| && QueueOf(g, g.layers[..k]) == ExecutionDataOf(g, g.layers[..k])
  {
    Sections(g);
    if k > 0 {
      SameIndices(g, k - 1);
      QueueUpTo(g, k - 1);
      DataUpTo(g, k - 1);
    } else {
      assert g.layers[..0] == [];
    }
  }

  /** The walk stands before workload i: it has come to position k, and every value needed there is in place. */
  ghost predicate Ready(g: Net, y: Layout, v: Assignment, s: Store, k: nat, i: nat) {
    k <= FirstOutput(g) <= |g.layers| && i == |QueueOf(g, g.layers[..k])| && Holds(g, y, v, s, k)
  }

  /** Layers without a workload are passed over. */
  lemma {:induction false} NextWorkload(g: Net, y: Layout, v: Assignment, s: Store, k: nat, i: nat) returns (k': nat)
    requires g.Valid() && Partitioned(g) && Ready(g, y, v, s, k, i) && i < |QueueOf(g, g.layers)|
    ensures Ready(g, y, v, s, k', i) && k' < FirstOutput(g) && g.layers[k'] == QueueOf(g, g.layers)[i] && Queued(g, g.layers[k'])
    decreases |g.layers| - k
  {
    Sections(g);
    assert g.layers[..|g.layers|] == g.layers;
    if k == FirstOutput(g) {
      NoMoreWorkloads(g, k);
      assert false;
    }
    QueueUpTo(g, k);
    if Queued(g, g.layers[k]) {
      QueueGrows(g, k + 1, |g.layers|);
      return k;
    }
    LayerSkipped(g, y, v, s, k);
    k' := NextWorkload(g, y, v, s, k + 1, i);
  }

  /** Outputs have no workloads. */
  lemma {:induction false} NoMoreWorkloads(g: Net, k: nat)
    requires g.Valid() && Partitioned(g) && FirstOutput(g) <= k <= |g.layers|
    ensures QueueOf(g, g.layers[..k]) == QueueOf(g, g.layers)
    decreases |g.layers| - k
  {
    Sections(g);
    if k < |g.layers| {
      var next := k + 1;
      NoWorkloadHere(g, k, next);
      NoMoreWorkloads(g, next);
    } else {
      assert g.layers[..k] == g.layers;
    }
  }

  lemma {:induction false} NoWorkloadHere(g: Net, k: nat, next: nat)
    requires k < |g.layers| && next == k + 1 && g.layers[k] in g.info && g.info[g.layers[k]].kind.Output?
    ensures QueueOf(g, g.layers[..next]) == QueueOf(g, g.layers[..k])
  {
    QueueUpTo(g, k);
  }

  /** After the last workload every Output can be read. */
  lemma {:induction false} QueueDone(g: Net, y: Layout, v: Assignment, s: Store, k: nat)
    requires g.Valid() && Partitioned(g) && Ready(g, y, v, s, k, |QueueOf(g, g.layers)|)
    ensures Holds(g, y, v, s, FirstOutput(g))
    decreases |g.layers| - k
  {
    Sections(g);
    if k < FirstOutput(g) {
      QueueUpTo(g, k);
      QueueGrows(g, k + 1, |g.layers|);
      assert g.layers[..|g.layers|] == g.layers;
      LayerSkipped(g, y, v, s, k);
      QueueDone(g, y, v, s, k + 1);
    }
  }

  /** Every place where a slot is read has a handle for it. */
  ghost predicate AllStandIn(g: Net, lent: Lent, cells: map<Coord, Handle>) {
    forall i :: i in g.source ==> CellStandsIn(g, lent, cells, i)
  }

  ghost predicate CellStandsIn(g: Net, lent: Lent, cells: map<Coord, Handle>, i: InSlot)
    requires i in g.source
  {
    CoordOf(g, i) in cells && StandsIn(lent, cells[CoordOf(g, i)], g.source[i])
  }

  /** Descriptor i has handles for the slots that layer l reads, and those of its own. */
  ghost predicate DescriptorOf(g: Net, lent: Lent, d: Descriptors, l: LayerId, i: nat) {
    && l in g.info
    && (forall c: nat :: c < g.info[l].numIn ==> ReadsThere(g, lent, d, InSlot(l, c), i))
    && (forall j: nat :: j < g.info[l].numOut ==> WritesThere(d, OutSlot(l, j), i))
  }

  ghost predicate ReadsThere(g: Net, lent: Lent, d: Descriptors, x: InSlot, i: nat) {
    x in g.source && Coord(i, x.index) in d.inputs && StandsIn(lent, d.inputs[Coord(i, x.index)], g.source[x])
  }

  ghost predicate WritesThere(d: Descriptors, o: OutSlot, i: nat) {
    Coord(i, o.index) in d.outputs && d.outputs[Coord(i, o.index)] == Own(o)
  }

  /** The descriptors are those of the graph. */
  ghost predicate DescriptorsOK(g: Net, lent: Lent, d: Descriptors) {
    AllStandIn(g, lent, d.inputs) && OutputsOK(g, OwnHandles(g), d.outputs, |g.layers|, 0)
  }

  /** Workload i, the layer at position k, has descriptor i. */
  lemma {:induction false} DescriptorFits(g: Net, lent: Lent, d: Descriptors, k: nat, i: nat)
    requires Walkable(g, OwnHandles(g)) && DescriptorsOK(g, lent, d) && k < FirstOutput(g) <= |g.layers|
    requires i == |QueueOf(g, g.layers[..k])| && Queued(g, g.layers[k])
    ensures DescriptorOf(g, lent, d, g.layers[k], i)
  {
    var l := g.layers[k];
    SameIndices(g, k);
    DescriptorAt(g, k);
    IndexOfUnique(g.layers, k);
    forall c: nat | c < g.info[l].numIn
      ensures ReadsThere(g, lent, d, InSlot(l, c), i)
    {
      assert g.IsIn(InSlot(l, c)) && g.SourceOK(InSlot(l, c));
      assert CellStandsIn(g, lent, d.inputs, InSlot(l, c));
    }
    forall j: nat | j < g.info[l].numOut
      ensures WritesThere(d, OutSlot(l, j), i)
    {
      assert g.IsOut(OutSlot(l, j)) && Tracked(g, OutSlot(l, j), |g.layers|, 0);
      assert OutputOK(g, OwnHandles(g), d.outputs, |g.layers|, 0, OutSlot(l, j));
    }
  }

  /** What workload i, with n inputs, reads through its descriptor. */
  function ReadsAt(y: Layout, s: Store, d: Descriptors, i: nat, n: nat): (args: seq<Value>)
    ensures |args| == n
  {
    seq(n, c requires 0 <= c => if Coord(i, c) in d.inputs then ReadHandle(y, s, d.values, d.inputs[Coord(i, c)]) else [])
  }

  lemma {:induction false} ReadsAtDescriptor(g: Net, lent: Lent, d: Descriptors, y: Layout, s: Store, t: Store, l: LayerId, i: nat)
    requires DescriptorOf(g, lent, d, l, i) && Alike(s, t, lent) && Filled(t, lent, d.values)
    ensures ReadsAt(y, s, d, i, g.info[l].numIn) == Reads(g, Lend(y, lent), t, l)
  {
    forall c: nat | c < g.info[l].numIn
      ensures ReadsAt(y, s, d, i, g.info[l].numIn)[c] == Reads(g, Lend(y, lent), t, l)[c]
    {
      var x := InSlot(l, c);
      assert ReadsThere(g, lent, d, x, i);
      ReadAlike(y, s, t, lent, d.values, d.inputs[Coord(i, c)], g.source[x]);
    }
  }

  /** A run that has come to store s, and what it would have come to if lent tensors were memory of the slots. */
  ghost predicate Stands(g: Net, opts: Options, y: Layout, lent: Lent, d: Descriptors, v: Assignment, s: Store, t: Store) {
    && InputsLent(g, lent) && Legal(g, opts, Lend(y, lent)) && Sized(g, Lend(y, lent), v)
    && Alike(s, t, lent) && Filled(t, lent, d.values)
  }

  /** Both runs write the same. */
  lemma {:induction false} WriteStands(g: Net, opts: Options, y: Layout, lent: Lent, d: Descriptors, v: Assignment, s: Store, t: Store, p: OutSlot)
    requires Stands(g, opts, y, lent, d, v, s, t) && Executed(g, p.layer) && g.IsOut(p) && |t.mem| == y.size
    ensures p in y.at ==> y.at[p] + |v[p]| <= |s.mem|
    ensures Stands(g, opts, y, lent, d, v, Put(y, s, p, v[p]), Put(Lend(y, lent), t, p, v[p]))
  {
    assert p !in lent.Values;
    PutAlike(y, s, t, lent, p, v[p]);
    PutFilled(Lend(y, lent), t, lent, d.values, p, v[p]);
  }

  /** Output slot j of workload i; the inputs are read anew. */
  method WriteOutput(g: Net, ghost opts: Options, y: Layout, ghost lent: Lent, d: Descriptors, f: Sem, ghost v: Assignment, s: Store, ghost t: Store,
                     l: LayerId, i: nat, j: nat, ghost k: nat)
    returns (s': Store, ghost t': Store)
    requires g.Valid() && Sorted(g) && Solves(g, f, v) && Stands(g, opts, y, lent, d, v, s, t)
    requires k < |g.layers| && g.layers[k] == l && Executed(g, l) && DescriptorOf(g, lent, d, l, i)
    requires j < g.info[l].numOut && HoldsAfter(g, Lend(y, lent), v, t, k, j)
    ensures HoldsAfter(g, Lend(y, lent), v, t', k, j + 1) && Stands(g, opts, y, lent, d, v, s', t')
  {
    var args := ReadsAt(y, s, d, i, g.info[l].numIn);
    ghost var p := OutSlot(l, j);
    ReadsAtDescriptor(g, lent, d, y, s, t, l, i);
    ReadsRight(g, Lend(y, lent), v, t, k, j);
    AtPosition(g, k);
    assert WritesThere(d, p, i) && g.IsOut(p) && SolvesAt(g, f, v, p);
    WriteKeeps(g, opts, Lend(y, lent), v, t, k, p);
    WriteStands(g, opts, y, lent, d, v, s, t, p);
    s' := Put(y, s, SlotOf(d.outputs[Coord(i, j)]), LayerOutput(g, f, l, args, j));
    t' := Put(Lend(y, lent), t, p, v[p]);
  }

  /** One workload, on its descriptor. When it is done its inputs are still intact. */
  method RunWorkload(g: Net, ghost opts: Options, y: Layout, ghost lent: Lent, d: Descriptors, f: Sem, ghost v: Assignment, s: Store, ghost t: Store,
                     l: LayerId, i: nat, ghost k: nat)
    returns (s': Store, ghost t': Store)
    requires g.Valid() && Sorted(g) && Solves(g, f, v) && Stands(g, opts, y, lent, d, v, s, t)
    requires k < |g.layers| && g.layers[k] == l && Executed(g, l) && DescriptorOf(g, lent, d, l, i) && Holds(g, Lend(y, lent), v, t, k)
    ensures Holds(g, Lend(y, lent), v, t', k + 1) && Stands(g, opts, y, lent, d, v, s', t')
    ensures ReadsAt(y, s', d, i, g.info[l].numIn) == Args(g, v, l)
  {
    LayerBegins(g, Lend(y, lent), v, t, k);
    s', t' := s, t;
    var j := 0;
    while j < g.info[l].numOut
      invariant j <= g.info[l].numOut && HoldsAfter(g, Lend(y, lent), v, t', k, j) && Stands(g, opts, y, lent, d, v, s', t')
    {
      s', t' := WriteOutput(g, opts, y, lent, d, f, v, s', t', l, i, j, k);
      j := j + 1;
    }
    ReadsRight(g, Lend(y, lent), v, t', k, j);
    ReadsAtDescriptor(g, lent, d, y, s', t', l, i);
    LayerEnds(g, Lend(y, lent), v, t', k);
  }

  lemma {:induction false} WorkloadRan(g: Net, y: Layout, v: Assignment, s: Store, s': Store, k: nat, k': nat, i: nat)
    requires Ready(g, y, v, s, k, i) && k < FirstOutput(g) && k' == k + 1 && Queued(g, g.layers[k]) && Holds(g, y, v, s', k')
    ensures Ready(g, y, v, s', k', i + 1)
  {
    QueueUpTo(g, k);
  }

  method RunNext(g: Net, ghost opts: Options, queue: seq<LayerId>, y: Layout, ghost lent: Lent, d: Descriptors, f: Sem, ghost v: Assignment,
                 s: Store, ghost t: Store, i: nat, ghost k: nat)
    returns (s': Store, ghost t': Store, ghost k': nat)
    requires Walkable(g, OwnHandles(g)) && DescriptorsOK(g, lent, d) && queue == QueueOf(g, g.layers)
    requires Solves(g, f, v) && Stands(g, opts, y, lent, d, v, s, t) && i < |queue| && Ready(g, Lend(y, lent), v, t, k, i)
    ensures Ready(g, Lend(y, lent), v, t', k', i + 1) && Stands(g, opts, y, lent, d, v, s', t')
  {
    ghost var m := NextWorkload(g, Lend(y, lent), v, t, k, i);
    DescriptorFits(g, lent, d, m, i);
    s', t' := RunWorkload(g, opts, y, lent, d, f, v, s, t, queue[i], i, m);
    k' := m + 1;
    WorkloadRan(g, Lend(y, lent), v, t, t', m, k', i);
  }

  /** All workloads in the order of the queue, each on the execution data with its index. */
  method RunQueue(g: Net, ghost opts: Options, queue: seq<LayerId>, y: Layout, ghost lent: Lent, d: Descriptors, f: Sem, ghost v: Assignment,
                  s: Store, ghost t: Store)
    returns (s': Store, ghost t': Store)
    requires Walkable(g, OwnHandles(g)) && DescriptorsOK(g, lent, d) && queue == QueueOf(g, g.layers)
    requires Solves(g, f, v) && Stands(g, opts, y, lent, d, v, s, t) && Holds(g, Lend(y, lent), v, t, 0)
    ensures Holds(g, Lend(y, lent), v, t', FirstOutput(g)) && Stands(g, opts, y, lent, d, v, s', t')
    ensures forall o :: Needed(g, o, FirstOutput(g)) && o !in lent.Values ==> o in v && Get(y, s', o) == v[o]
  {
    Sections(g);
    assert g.layers[..0] == [];
    s', t' := s, t;
    ghost var k: nat := 0;
    var i := 0;
    while i < |queue|
      invariant i <= |queue| && Ready(g, Lend(y, lent), v, t', k, i) && Stands(g, opts, y, lent, d, v, s', t')
    {
      s', t', k := RunNext(g, opts, queue, y, lent, d, f, v, s', t', i, k);
      i := i + 1;
    }
    QueueDone(g, Lend(y, lent), v, t', k);
    NeededThere(g, y, lent, v, s', t');
  }

  /** What is still needed and not lent is there. */
  lemma {:induction false} NeededThere(g: Net, y: Layout, lent: Lent, v: Assignment, s: Store, t: Store)
    requires Holds(g, Lend(y, lent), v, t, FirstOutput(g)) && Alike(s, t, lent)
    ensures forall o :: Needed(g, o, FirstOutput(g)) && o !in lent.Values ==> o in v && Get(y, s, o) == v[o]
  {
    forall o | Needed(g, o, FirstOutput(g)) && o !in lent.Values
      ensures o in v && Get(y, s, o) == v[o]
    {
      GetAlike(y, s, t, lent, o);
    }
  }
}
