/**
  Running a network with its tensors in shared memory. Slots whose lifetimes overlap have disjoint bytes;
  the others may use the same bytes. Every workload then reads what it would read if each slot had memory
  of its own.
 */
module SharedMemory {
  import opened Sequences
  import opened NetGraph
  import opened Edges
  import opened Evaluation
  import opened Ordering
  import opened MemoryProfile

  /** Where the bytes of the slots with a block are; bytes says how long every value is. */
  datatype Layout = Layout(bytes: map<OutSlot, nat>, at: map<OutSlot, nat>, size: nat)

  /** The contents of the shared memory, and the values of the slots that have memory of their own. */
  datatype Store = Store(mem: seq<int>, own: Assignment)

  ghost predicate Overlap(g: Net, opts: Options, o: OutSlot, p: OutSlot) {
    Start(g, opts, o) <= End(g, opts, p) && Start(g, opts, p) <= End(g, opts, o)
  }

  ghost predicate Apart(y: Layout, o: OutSlot, p: OutSlot)
    requires o in y.at && p in y.at && o in y.bytes && p in y.bytes
  {
    y.at[o] + y.bytes[o] <= y.at[p] || y.at[p] + y.bytes[p] <= y.at[o]
  }

  /** What the memory optimizer promises: lifetimes that overlap have disjoint bytes. */
  ghost predicate Legal(g: Net, opts: Options, y: Layout) {
    && (forall o :: g.IsOut(o) ==> o in y.bytes)
    && (forall o :: o in y.at ==> Shared(g, opts, o) && o in y.bytes && y.at[o] + y.bytes[o] <= y.size)
    && (forall o, p :: o in y.at && p in y.at && o != p && Overlap(g, opts, o, p) ==> Apart(y, o, p))
  }

  function Write(mem: seq<int>, at: nat, v: Value): (r: seq<int>)
    requires at + |v| <= |mem|
    ensures |r| == |mem|
    ensures forall k {:trigger r[k]} :: 0 <= k < |r| ==> r[k] == if at <= k < at + |v| then v[k - at] else mem[k]
  {
    mem[..at] + v + mem[at + |v|..]
  }

  function Put(y: Layout, s: Store, o: OutSlot, v: Value): Store
    requires o in y.at ==> y.at[o] + |v| <= |s.mem|
  {
    if o in y.at then s.(mem := Write(s.mem, y.at[o], v)) else s.(own := s.own[o := v])
  }

  /** What a workload reads from output slot o. */
  function Get(y: Layout, s: Store, o: OutSlot): Value {
    if o in y.at && o in y.bytes && y.at[o] + y.bytes[o] <= |s.mem| then s.mem[y.at[o]..y.at[o] + y.bytes[o]]
    else if o in s.own then s.own[o]
    else []
  }

  lemma {:induction false} GetPut(y: Layout, s: Store, o: OutSlot, v: Value, p: OutSlot)
    requires o in y.at ==> o in y.bytes && |v| == y.bytes[o] && y.at[o] + |v| <= |s.mem|
    requires o != p && o in y.at && p in y.at ==> p in y.bytes && Apart(y, o, p)
    ensures Get(y, Put(y, s, o, v), p) == if o == p then v else Get(y, s, p)
  {
    if o in y.at && p in y.at && p in y.bytes && y.at[p] + y.bytes[p] <= |s.mem| {
      var r := Write(s.mem, y.at[o], v);
      assert r[y.at[p]..y.at[p] + y.bytes[p]] == if o == p then v else s.mem[y.at[p]..y.at[p] + y.bytes[p]];
    }
  }

  /** v gives every slot a value of its length. */
  ghost predicate Sized(g: Net, y: Layout, v: Assignment) {
    forall o :: g.IsOut(o) ==> o in v && o in y.bytes && |v[o]| == y.bytes[o]
  }

  /** A layer that is executed as a workload. */
  predicate Executed(g: Net, l: LayerId) {
    l in g.info && !g.info[l].kind.Input? && !g.info[l].kind.Output? && !g.info[l].kind.Constant?
  }

  /** Slot o has been written and is read at position k or later. */
  ghost predicate Needed(g: Net, o: OutSlot, k: nat) {
    && g.IsOut(o) && (Pos(g, o.layer) < k || !Executed(g, o.layer))
    && exists i :: i in g.source && g.source[i] == o && k <= Pos(g, i.layer)
  }

  /** Before position k is executed, every slot that is still needed holds its value. */
  ghost predicate Holds(g: Net, y: Layout, v: Assignment, s: Store, k: nat) {
    |s.mem| == y.size && forall o :: Needed(g, o, k) ==> o in v && Get(y, s, o) == v[o]
  }

  /** The same while the layer at position k writes: its first j output slots are written. What it reads itself is
      needed until its last write. */
  ghost predicate NeededAfter(g: Net, o: OutSlot, k: nat, j: nat) {
    && g.IsOut(o) && (Pos(g, o.layer) < k || !Executed(g, o.layer) || (Pos(g, o.layer) == k && o.index < j))
    && exists i :: i in g.source && g.source[i] == o && k <= Pos(g, i.layer)
  }

  ghost predicate HoldsAfter(g: Net, y: Layout, v: Assignment, s: Store, k: nat, j: nat) {
    |s.mem| == y.size && forall o :: NeededAfter(g, o, k, j) ==> o in v && Get(y, s, o) == v[o]
  }

  lemma {:induction false} EndAfterStart(g: Net, opts: Options, o: OutSlot)
    requires g.Valid() && Forward(g)
    ensures Start(g, opts, o) <= End(g, opts, o)
    ensures forall i :: i in g.source && g.source[i] == o ==> StepOf(g, opts, i.layer) <= End(g, opts, o)
  {
    SinksAreReaders(g, o);
    forall i | i in g.Sinks(o)
      ensures StepOf(g, opts, i.layer) <= End(g, opts, o) && Start(g, opts, o) <= StepOf(g, opts, i.layer)
    {
      assert g.SinksOK(o);
      MaxStepIsMax(g, opts, g.Sinks(o), i);
      StepMonotone(g, opts, Pos(g, o.layer), Pos(g, i.layer));
    }
    if g.Sinks(o) != [] {
      HasMember(g.Sinks(o));
    }
  }

  /** Inputs come before every layer that is executed. */
  lemma {:induction false} InputsFirst(g: Net, a: LayerId, b: LayerId)
    requires g.Valid() && Partitioned(g) && a in g.info && b in g.info && g.info[a].kind.Input? && !g.info[b].kind.Input?
    ensures Pos(g, a) < Pos(g, b)
  {
    assert a in g.layers && b in g.layers;
    assert Ranks(g)[Pos(g, a)] == 0 && Ranks(g)[Pos(g, b)] > 0;
  }

  /** A slot that is still needed while a layer writes overlaps with what the layer writes. */
  lemma {:induction false} NeededOverlaps(g: Net, opts: Options, o: OutSlot, p: OutSlot, k: nat, j: nat)
    requires g.Valid() && Sorted(g) && NeededAfter(g, o, k, j) && Executed(g, p.layer) && Pos(g, p.layer) == k
    requires !g.info[o.layer].kind.Constant?
    ensures Overlap(g, opts, o, p)
  {
    var i :| i in g.source && g.source[i] == o && k <= Pos(g, i.layer);
    EndAfterStart(g, opts, o);
    EndAfterStart(g, opts, p);
    StepMonotone(g, opts, k, Pos(g, i.layer));
    if g.info[o.layer].kind.Input? {
      InputsFirst(g, o.layer, p.layer);
    }
    assert g.SourceOK(i);
    StepMonotone(g, opts, Pos(g, o.layer), k);
  }

  /** Writing one output slot keeps what is still needed, and adds the value written. */
  lemma {:induction false} WriteKeeps(g: Net, opts: Options, y: Layout, v: Assignment, s: Store, k: nat, p: OutSlot)
    requires g.Valid() && Sorted(g) && Legal(g, opts, y) && Sized(g, y, v) && HoldsAfter(g, y, v, s, k, p.index)
    requires Executed(g, p.layer) && g.IsOut(p) && Pos(g, p.layer) == k
    ensures HoldsAfter(g, y, v, Put(y, s, p, v[p]), k, p.index + 1)
  {
    var s', j := Put(y, s, p, v[p]), p.index + 1;
    forall o | NeededAfter(g, o, k, j)
      ensures o in v && Get(y, s', o) == v[o]
    {
      if o != p {
        SamePosition(g, o, p);
        if o in y.at && p in y.at {
          NeededOverlaps(g, opts, o, p, k, j);
        }
      }
      GetPut(y, s, p, v[p], o);
    }
  }

  lemma {:induction false} SamePosition(g: Net, o: OutSlot, p: OutSlot)
    requires g.Listed() && o.layer in g.info && p.layer in g.info
    ensures Pos(g, o.layer) == Pos(g, p.layer) ==> o.layer == p.layer
  {
    assert o.layer in g.layers && p.layer in g.layers;
  }

  lemma {:induction false} LayerBegins(g: Net, y: Layout, v: Assignment, s: Store, k: nat)
    requires g.Listed() && k < |g.layers| && Holds(g, y, v, s, k)
    ensures HoldsAfter(g, y, v, s, k, 0)
  {
    AtPosition(g, k);
    forall o | NeededAfter(g, o, k, 0)
      ensures Needed(g, o, k)
    {
    }
  }

  lemma {:induction false} LayerEnds(g: Net, y: Layout, v: Assignment, s: Store, k: nat)
    requires g.Listed() && k < |g.layers| && g.layers[k] in g.info && HoldsAfter(g, y, v, s, k, g.info[g.layers[k]].numOut)
    ensures Holds(g, y, v, s, k + 1)
  {
    AtPosition(g, k);
    var k' := k + 1;
    forall o | Needed(g, o, k')
      ensures o in v && Get(y, s, o) == v[o]
    {
      assert NeededAfter(g, o, k, g.info[g.layers[k]].numOut);
    }
  }

  /** A layer that is not executed changes nothing. */
  lemma {:induction false} LayerSkipped(g: Net, y: Layout, v: Assignment, s: Store, k: nat)
    requires g.Listed() && k < |g.layers| && !Executed(g, g.layers[k]) && Holds(g, y, v, s, k)
    ensures Holds(g, y, v, s, k + 1)
  {
    AtPosition(g, k);
    var k' := k + 1;
    forall o | Needed(g, o, k')
      ensures Needed(g, o, k)
    {
    }
  }

  /** What the workload of layer l reads. */
  function Reads(g: Net, y: Layout, s: Store, l: LayerId): (a: seq<Value>)
    requires l in g.info
    ensures |a| == g.info[l].numIn
  {
    seq(g.info[l].numIn, c requires 0 <= c => if InSlot(l, c) in g.source then Get(y, s, g.source[InSlot(l, c)]) else [])
  }

  /** A workload reads the values it should read, also between its own writes. */
  lemma {:induction false} ReadsRight(g: Net, y: Layout, v: Assignment, s: Store, k: nat, j: nat)
    requires g.Valid() && Forward(g) && k < |g.layers| && g.layers[k] in g.info && HoldsAfter(g, y, v, s, k, j)
    ensures Reads(g, y, s, g.layers[k]) == Args(g, v, g.layers[k])
  {
    var l := g.layers[k];
    AtPosition(g, k);
    forall c: nat | c < g.info[l].numIn
      ensures Reads(g, y, s, l)[c] == ArgVal(g, v, InSlot(l, c))
    {
      var i := InSlot(l, c);
      assert g.SourceOK(i);
      assert i in g.source ==> NeededAfter(g, g.source[i], k, j);
    }
  }

  /** Some layer reads what Input layer l provides. */
  ghost predicate IsRead(g: Net, l: LayerId) {
    g.Sinks(OutSlot(l, 0)) != []
  }

  /** No Input that nobody reads is written after an Input that follows it in the list and is read. */
  ghost predicate InputsSafe(g: Net, opts: Options, order: seq<LayerId>) {
    forall m, n :: 0 <= m < n < |order| && SharedInput(g, opts, order[m]) && SharedInput(g, opts, order[n]) ==>
      IsRead(g, order[m]) && !IsRead(g, order[n]) ==> Pos(g, order[m]) < Pos(g, order[n])
  }

  ghost predicate SharedInput(g: Net, opts: Options, l: LayerId) {
    l in g.info && g.info[l].kind.Input? && Shared(g, opts, OutSlot(l, 0))
  }

  /** The user's list of input tensors names every Input once. */
  ghost predicate ListsInputs(g: Net, order: seq<LayerId>) {
    NoDup(order) && forall l :: l in order <==> l in g.info && g.info[l].kind.Input?
  }

  /** The values given for the first n Inputs in the list are where they belong, if they are read at all. */
  ghost predicate InputsHeld(g: Net, y: Layout, f: Sem, s: Store, order: seq<LayerId>, n: nat) {
    |s.mem| == y.size && forall m :: 0 <= m < n && m < |order| ==> InputHeld(g, y, f, s, order[m])
  }

  ghost predicate InputHeld(g: Net, y: Layout, f: Sem, s: Store, l: LayerId) {
    IsRead(g, l) ==> Get(y, s, OutSlot(l, 0)) == f(l, [], 0)
  }

  ghost predicate InputsSized(g: Net, y: Layout, f: Sem) {
    forall l :: l in g.info && g.info[l].kind.Input? ==> OutSlot(l, 0) in y.bytes && |f(l, [], 0)| == y.bytes[OutSlot(l, 0)]
  }

  /** The lifetimes of two Inputs overlap, except that of an unread one with that of a later one. */
  lemma {:induction false} InputsOverlap(g: Net, opts: Options, a: LayerId, b: LayerId)
    requires g.Valid() && Sorted(g) && SharedInput(g, opts, a) && SharedInput(g, opts, b) && IsRead(g, b)
    requires IsRead(g, a) || Pos(g, b) < Pos(g, a)
    ensures Overlap(g, opts, OutSlot(a, 0), OutSlot(b, 0))
  {
    ReadEndsLate(g, opts, b, a);
    if IsRead(g, a) {
      ReadEndsLate(g, opts, a, b);
    } else {
      StepMonotone(g, opts, Pos(g, b), Pos(g, a));
    }
  }

  lemma {:induction false} ReadEndsLate(g: Net, opts: Options, b: LayerId, a: LayerId)
    requires g.Valid() && Sorted(g) && IsRead(g, b) && a in g.info && g.info[a].kind.Input?
    ensures Start(g, opts, OutSlot(a, 0)) <= End(g, opts, OutSlot(b, 0))
  {
    var o := OutSlot(b, 0);
    var i := g.Sinks(o)[0];
    HasMember(g.Sinks(o));
    assert g.SinksOK(o) && g.SourceOK(i);
    InputsFirst(g, a, i.layer);
    EndAfterStart(g, opts, o);
    StepMonotone(g, opts, Pos(g, a), Pos(g, i.layer));
  }

  /** Copying one input tensor leaves the others alone if the list is safe. */
  lemma {:induction false} InputWritten(g: Net, opts: Options, y: Layout, f: Sem, s: Store, s': Store, order: seq<LayerId>, n: nat)
    requires g.Valid() && Sorted(g) && Legal(g, opts, y) && InputsSized(g, y, f) && ListsInputs(g, order)
    requires InputsSafe(g, opts, order) && n < |order| && InputsHeld(g, y, f, s, order, n)
    requires OutSlot(order[n], 0) in y.at ==> y.at[OutSlot(order[n], 0)] + |f(order[n], [], 0)| <= y.size
    requires s' == Put(y, s, OutSlot(order[n], 0), f(order[n], [], 0))
    ensures InputsHeld(g, y, f, s', order, n + 1)
  {
    var n' := n + 1;
    forall m | 0 <= m < n' && m < |order|
      ensures InputHeld(g, y, f, s', order[m])
    {
      assert m < n ==> InputHeld(g, y, f, s, order[m]);
      InputKept(g, opts, y, f, s, order, n, m);
    }
  }

  lemma {:induction false} InputKept(g: Net, opts: Options, y: Layout, f: Sem, s: Store, order: seq<LayerId>, n: nat, m: nat)
    requires g.Valid() && Sorted(g) && Legal(g, opts, y) && InputsSized(g, y, f) && ListsInputs(g, order)
    requires InputsSafe(g, opts, order) && m <= n < |order| && |s.mem| == y.size && (m < n ==> InputHeld(g, y, f, s, order[m]))
    requires OutSlot(order[n], 0) in y.at ==> y.at[OutSlot(order[n], 0)] + |f(order[n], [], 0)| <= y.size
    ensures InputHeld(g, y, f, Put(y, s, OutSlot(order[n], 0), f(order[n], [], 0)), order[m])
  {
    var p, o := OutSlot(order[n], 0), OutSlot(order[m], 0);
    assert order[m] in order && order[n] in order;
    if IsRead(g, order[m]) {
      if m < n {
        NoDupDistinct(order, m, n);
        if o in y.at && p in y.at {
          InputsOverlap(g, opts, order[n], order[m]);
        }
      }
      GetPut(y, s, p, f(order[n], [], 0), o);
    }
  }

  /** The store once the first n input tensors have been copied. */
  ghost function Prepared(g: Net, y: Layout, f: Sem, s: Store, order: seq<LayerId>, n: nat): Store
    requires n <= |order|
  {
    if n == 0 then s
    else
      var t, o, v := Prepared(g, y, f, s, order, n - 1), OutSlot(order[n - 1], 0), f(order[n - 1], [], 0);
      if o in y.at && y.at[o] + |v| > |t.mem| then t else Put(y, t, o, v)
  }

  lemma {:induction false} PreparedNext(g: Net, opts: Options, y: Layout, f: Sem, s: Store, order: seq<LayerId>, n: nat)
    requires Legal(g, opts, y) && InputsSized(g, y, f) && ListsInputs(g, order) && |s.mem| == y.size && n < |order|
    ensures |Prepared(g, y, f, s, order, n).mem| == y.size && order[n] in g.info && g.info[order[n]].kind.Input?
    ensures OutSlot(order[n], 0) in y.at ==> y.at[OutSlot(order[n], 0)] + |f(order[n], [], 0)| <= y.size
    ensures Prepared(g, y, f, s, order, n + 1) == Put(y, Prepared(g, y, f, s, order, n), OutSlot(order[n], 0), f(order[n], [], 0))
  {
    assert order[n] in order;
    if n > 0 {
      PreparedNext(g, opts, y, f, s, order, n - 1);
    }
  }

  /** A safe list leaves every input that is read where it belongs. */
  lemma {:induction false} PreparedHolds(g: Net, opts: Options, y: Layout, f: Sem, s: Store, order: seq<LayerId>, n: nat)
    requires g.Valid() && Sorted(g) && Legal(g, opts, y) && InputsSized(g, y, f) && ListsInputs(g, order) && |s.mem| == y.size
    requires InputsSafe(g, opts, order) && n <= |order|
    ensures InputsHeld(g, y, f, Prepared(g, y, f, s, order, n), order, n)
  {
    if n > 0 {
      PreparedHolds(g, opts, y, f, s, order, n - 1);
      PreparedStep(g, opts, y, f, s, order, n - 1, n);
    }
  }

  lemma {:induction false} PreparedStep(g: Net, opts: Options, y: Layout, f: Sem, s: Store, order: seq<LayerId>, n: nat, n': nat)
    requires g.Valid() && Sorted(g) && Legal(g, opts, y) && InputsSized(g, y, f) && ListsInputs(g, order) && |s.mem| == y.size
    requires InputsSafe(g, opts, order) && n < |order| && n' == n + 1
    requires InputsHeld(g, y, f, Prepared(g, y, f, s, order, n), order, n)
    ensures InputsHeld(g, y, f, Prepared(g, y, f, s, order, n'), order, n')
  {
    PreparedNext(g, opts, y, f, s, order, n);
    InputWritten(g, opts, y, f, Prepared(g, y, f, s, order, n), Prepared(g, y, f, s, order, n'), order, n);
  }

  lemma {:induction false} PreparedConstants(g: Net, opts: Options, y: Layout, f: Sem, s: Store, order: seq<LayerId>, n: nat)
    requires Legal(g, opts, y) && InputsSized(g, y, f) && ListsInputs(g, order) && |s.mem| == y.size
    requires ConstantsHeld(g, f, s) && n <= |order|
    ensures ConstantsHeld(g, f, Prepared(g, y, f, s, order, n))
  {
    if n > 0 {
      PreparedConstants(g, opts, y, f, s, order, n - 1);
      PreparedNext(g, opts, y, f, s, order, n - 1);
    }
  }

  /** The values of the Constants have been in place since the network was loaded. */
  ghost predicate ConstantsHeld(g: Net, f: Sem, s: Store) {
    forall o :: g.IsOut(o) && g.info[o.layer].kind.Constant? ==> o in s.own && s.own[o] == f(o.layer, [], o.index)
  }

  lemma {:induction false} RunBegins(g: Net, opts: Options, y: Layout, f: Sem, v: Assignment, s: Store, order: seq<LayerId>)
    requires g.Valid() && Legal(g, opts, y) && Solves(g, f, v) && ListsInputs(g, order)
    requires InputsHeld(g, y, f, s, order, |order|) && ConstantsHeld(g, f, s)
    ensures Holds(g, y, v, s, 0)
  {
    forall o | Needed(g, o, 0)
      ensures o in v && Get(y, s, o) == v[o]
    {
      assert SolvesAt(g, f, v, o);
      assert Args(g, v, o.layer) == [];
      var i :| i in g.source && g.source[i] == o && 0 <= Pos(g, i.layer);
      assert g.SourceOK(i);
      if g.info[o.layer].kind.Input? {
        assert o.layer in order && order[IndexOf(order, o.layer)] == o.layer && o == OutSlot(o.layer, 0);
        assert IsRead(g, order[IndexOf(order, o.layer)]);
      }
    }
  }

  lemma {:induction false} OutputReads(g: Net, y: Layout, f: Sem, s: Store, l: LayerId)
    requires g.Valid() && Sorted(g) && Acyclic(g) && Holds(g, y, Meaning(g, f), s, FirstOutput(g))
    requires l in g.info && g.info[l].kind.Output? && InSlot(l, 0) in g.source
    ensures Get(y, s, g.source[InSlot(l, 0)]) == Reaching(g, f, l)
  {
    OutputNeeds(g, InSlot(l, 0));
  }

  lemma {:induction false} OutputNeeds(g: Net, i: InSlot)
    requires g.Valid() && Sorted(g) && i in g.source && i.layer in g.info && g.info[i.layer].kind.Output?
    ensures Needed(g, g.source[i], FirstOutput(g))
  {
    Sections(g);
    assert g.SourceOK(i) && i.layer in g.layers && g.layers[Pos(g, i.layer)] == i.layer;
    assert g.source[i].layer in g.layers && g.layers[Pos(g, g.source[i].layer)] == g.source[i].layer;
    assert g.info[g.source[i].layer].WellShaped();
  }

  lemma {:induction false} MeaningSized(g: Net, y: Layout, f: Sem)
    requires g.Valid() && Acyclic(g) && Sized(g, y, Meaning(g, f))
    ensures InputsSized(g, y, f)
  {
    forall l | l in g.info && g.info[l].kind.Input?
      ensures OutSlot(l, 0) in y.bytes && |f(l, [], 0)| == y.bytes[OutSlot(l, 0)]
    {
      assert g.IsOut(OutSlot(l, 0)) && SolvesAt(g, f, Meaning(g, f), OutSlot(l, 0));
      assert Args(g, Meaning(g, f), l) == [];
    }
  }

  /** The placements of all blocks that the memory optimizer may come up with. */
  ghost predicate Places(g: Net, opts: Options, bytes: map<OutSlot, nat>, y: Layout) {
    Legal(g, opts, y) && y.bytes == bytes && forall o :: Shared(g, opts, o) ==> o in y.at
  }

  /** Whatever the placement, the input values and the memory before, the inputs that are read arrive. */
  ghost predicate AlwaysHeld(g: Net, opts: Options, bytes: map<OutSlot, nat>, order: seq<LayerId>) {
    forall y: Layout, f: Sem, s: Store :: Places(g, opts, bytes, y) && InputsSized(g, y, f) && |s.mem| == y.size ==>
      InputsHeld(g, y, f, Prepared(g, y, f, s, order, |order|), order, |order|)
  }

  /** Every input value has as many bytes as its slot, each byte telling which Input it is from. */
  ghost function Marked(bytes: map<OutSlot, nat>): Sem {
    (l: LayerId, args: seq<Value>, k: nat) => if OutSlot(l, k) in bytes then seq(bytes[OutSlot(l, k)], _ => l) else []
  }

  ghost function Listing(s: set<OutSlot>): (r: seq<OutSlot>)
    ensures forall o :: o in r <==> o in s
    decreases |s|
  {
    if s == {} then [] else
      var o :| o in s;
      [o] + Listing(s - {o})
  }

  /** At least as many bytes as any listed slot has. */
  ghost function Widest(bytes: map<OutSlot, nat>, s: seq<OutSlot>): (w: nat)
    ensures forall o :: o in s && o in bytes ==> bytes[o] <= w
  {
    if s == [] then 0
    else
      var w := Widest(bytes, s[1..]);
      assert forall o :: o in s ==> o == s[0] || o in s[1..];
      if s[0] in bytes && w < bytes[s[0]] then bytes[s[0]] else w
  }

  function Times(i: nat, w: nat): nat {
    i * w
  }

  /** A place of its own for every slot, except that b gets the place of a. */
  ghost function Clashing(bytes: map<OutSlot, nat>, all: seq<OutSlot>, a: OutSlot, b: OutSlot): Layout {
    var w := Widest(bytes, all);
    Layout(bytes, map o | o in all :: Times(IndexOf(all, if o == b then a else o), w), Times(|all| + 1, w))
  }

  lemma {:induction false} Multiples(i: nat, j: nat, w: nat)
    requires i < j
    ensures Times(i, w) + w <= Times(j, w)
  {
    assert j * w == i * w + (j - i) * w;
    assert (j - i) * w == w + (j - i - 1) * w;
  }

  lemma {:induction false} ClashingIsLegal(g: Net, opts: Options, bytes: map<OutSlot, nat>, all: seq<OutSlot>, a: OutSlot, b: OutSlot)
    requires (forall o :: g.IsOut(o) ==> o in bytes) && (forall o :: o in all <==> Shared(g, opts, o)) && a in all && b in all && a != b
    requires !Overlap(g, opts, a, b)
    ensures Places(g, opts, bytes, Clashing(bytes, all, a, b))
  {
    var w, y := Widest(bytes, all), Clashing(bytes, all, a, b);
    forall o | o in y.at
      ensures Shared(g, opts, o) && o in y.bytes && y.at[o] + y.bytes[o] <= y.size
    {
      Multiples(IndexOf(all, if o == b then a else o), |all| + 1, w);
    }
    forall o, p | o in y.at && p in y.at && o != p && Overlap(g, opts, o, p)
      ensures Apart(y, o, p)
    {
      ClashingPair(bytes, all, a, b, o, p);
    }
  }

  /** Only a and b are in one place. */
  lemma {:induction false} ClashingPair(bytes: map<OutSlot, nat>, all: seq<OutSlot>, a: OutSlot, b: OutSlot, o: OutSlot, p: OutSlot)
    requires (forall x :: x in all ==> x in bytes) && a in all && o in all && p in all && o != p
    requires !(o == a && p == b) && !(o == b && p == a)
    ensures Apart(Clashing(bytes, all, a, b), o, p)
  {
    var w, m, n := Widest(bytes, all), IndexOf(all, if o == b then a else o), IndexOf(all, if p == b then a else p);
    assert all[m] == (if o == b then a else o) && all[n] == (if p == b then a else p);
    if m < n { Multiples(m, n, w); }
    if n < m { Multiples(n, m, w); }
  }

  /** The first byte of the place where order[n] is written tells of order[n]. */
  ghost predicate Tells(y: Layout, s: Store, order: seq<LayerId>, n: nat) {
    && |s.mem| == y.size && n < |order| && OutSlot(order[n], 0) in y.at && y.at[OutSlot(order[n], 0)] < y.size
    && s.mem[y.at[OutSlot(order[n], 0)]] == order[n]
  }

  lemma {:induction false} ClashMade(y: Layout, s: Store, order: seq<LayerId>, n: nat, p: OutSlot)
    requires |s.mem| == y.size && n < |order| && p == OutSlot(order[n], 0) && p in y.at && p in y.bytes
    requires y.bytes[p] > 0 && y.at[p] + y.bytes[p] <= y.size
    ensures |Marked(y.bytes)(order[n], [], 0)| == y.bytes[p]
    ensures Tells(y, Put(y, s, p, Marked(y.bytes)(order[n], [], 0)), order, n)
  {
  }

  lemma {:induction false} ClashKept(y: Layout, s: Store, order: seq<LayerId>, n: nat, o: OutSlot, v: Value)
    requires Tells(y, s, order, n) && OutSlot(order[n], 0) in y.bytes && y.bytes[OutSlot(order[n], 0)] > 0
    requires o in y.at ==> o in y.bytes && |v| == y.bytes[o] && y.at[o] + |v| <= y.size && Apart(y, o, OutSlot(order[n], 0))
    ensures Tells(y, Put(y, s, o, v), order, n)
  {
  }

  lemma {:induction false} OtherInput(order: seq<LayerId>, m: nat, n: nat, k: nat)
    requires NoDup(order) && m < n < k < |order|
    ensures order[k] != order[m] && order[k] != order[n]
  {
    NoDupDistinct(order, m, k);
    NoDupDistinct(order, n, k);
  }

  /** Inputs written later than the clashing two have places of their own. */
  lemma {:induction false} ClashStays(g: Net, opts: Options, y: Layout, s: Store, order: seq<LayerId>, m: nat, n: nat, k: nat)
    requires Legal(g, opts, y) && InputsSized(g, y, Marked(y.bytes)) && ListsInputs(g, order) && |s.mem| == y.size
    requires m < n < k <= |order| && OutSlot(order[n], 0) in y.at && y.bytes[OutSlot(order[n], 0)] > 0
    requires forall o :: o in y.at && o.layer != order[m] && o.layer != order[n] ==> Apart(y, o, OutSlot(order[n], 0))
    ensures Tells(y, Prepared(g, y, Marked(y.bytes), s, order, k), order, n)
  {
    var j: nat := k - 1;
    var f, t := Marked(y.bytes), Prepared(g, y, Marked(y.bytes), s, order, j);
    PreparedAt(g, opts, y, f, s, order, j, k);
    if j > n {
      ClashStays(g, opts, y, s, order, m, n, j);
      ClashStaysNext(g, opts, y, t, order, m, n, j);
    } else {
      ClashMade(y, t, order, n, OutSlot(order[n], 0));
    }
  }

  lemma {:induction false} PreparedAt(g: Net, opts: Options, y: Layout, f: Sem, s: Store, order: seq<LayerId>, j: nat, k: nat)
    requires Legal(g, opts, y) && InputsSized(g, y, f) && ListsInputs(g, order) && |s.mem| == y.size && j < |order| && k == j + 1
    ensures |Prepared(g, y, f, s, order, j).mem| == y.size && order[j] in g.info && g.info[order[j]].kind.Input?
    ensures OutSlot(order[j], 0) in y.at ==> y.at[OutSlot(order[j], 0)] + |f(order[j], [], 0)| <= y.size
    ensures Prepared(g, y, f, s, order, k) == Put(y, Prepared(g, y, f, s, order, j), OutSlot(order[j], 0), f(order[j], [], 0))
  {
    PreparedNext(g, opts, y, f, s, order, j);
  }

  lemma {:induction false} ClashStaysNext(g: Net, opts: Options, y: Layout, t: Store, order: seq<LayerId>, m: nat, n: nat, k: nat)
    requires Legal(g, opts, y) && InputsSized(g, y, Marked(y.bytes)) && ListsInputs(g, order) && Tells(y, t, order, n)
    requires m < n < k < |order| && OutSlot(order[n], 0) in y.at && y.bytes[OutSlot(order[n], 0)] > 0
    requires forall o :: o in y.at && o.layer != order[m] && o.layer != order[n] ==> Apart(y, o, OutSlot(order[n], 0))
    requires OutSlot(order[k], 0) in y.at ==> y.at[OutSlot(order[k], 0)] + |Marked(y.bytes)(order[k], [], 0)| <= |t.mem|
    ensures Tells(y, Put(y, t, OutSlot(order[k], 0), Marked(y.bytes)(order[k], [], 0)), order, n)
  {
    assert order[k] in order;
    OtherInput(order, m, n, k);
    ClashKept(y, t, order, n, OutSlot(order[k], 0), Marked(y.bytes)(order[k], [], 0));
  }

  /** An unread Input written after a later one that is read can spoil it. */
  lemma {:induction false} UnsafeSpoils(g: Net, opts: Options, bytes: map<OutSlot, nat>, order: seq<LayerId>, m: nat, n: nat)
    requires g.Valid() && Sorted(g) && (forall o :: g.IsOut(o) ==> o in bytes && bytes[o] > 0) && ListsInputs(g, order)
    requires m < n < |order| && SharedInput(g, opts, order[m]) && SharedInput(g, opts, order[n])
    requires IsRead(g, order[m]) && !IsRead(g, order[n]) && Pos(g, order[n]) <= Pos(g, order[m])
    ensures !AlwaysHeld(g, opts, bytes, order)
  {
    NoDupDistinct(order, m, n);
    UnreadEndsEarly(g, opts, order[n], order[m]);
    var y := ClashingLayout(g, opts, bytes, OutSlot(order[n], 0), OutSlot(order[m], 0));
    var s := Store(seq(y.size, _ => 0), map[]);
    ClashStays(g, opts, y, s, order, m, n, |order|);
    Spoiled(g, y, Prepared(g, y, Marked(bytes), s, order, |order|), order, m, n);
  }

  lemma {:induction false} ClashingLayout(g: Net, opts: Options, bytes: map<OutSlot, nat>, a: OutSlot, b: OutSlot) returns (y: Layout)
    requires g.Valid() && (forall o :: g.IsOut(o) ==> o in bytes && bytes[o] > 0)
    requires Shared(g, opts, a) && Shared(g, opts, b) && a != b && !Overlap(g, opts, a, b) && a.index == 0 && b.index == 0
    requires g.info[a.layer].kind.Input? && g.info[b.layer].kind.Input?
    ensures Places(g, opts, bytes, y) && y.at[b] == y.at[a] && InputsSized(g, y, Marked(y.bytes))
    ensures forall o :: o in y.at && o.layer != b.layer && o.layer != a.layer ==> Apart(y, o, a)
  {
    var all := Listing(set o | o in OutSlots(g) && Shared(g, opts, o));
    y := Clashing(bytes, all, a, b);
    ClashingIsLegal(g, opts, bytes, all, a, b);
    MarkedSized(g, y);
    forall o | o in y.at && o.layer != b.layer && o.layer != a.layer
      ensures Apart(y, o, a)
    {
      ClashingPair(bytes, all, a, b, o, a);
    }
  }

  lemma {:induction false} MarkedSized(g: Net, y: Layout)
    requires g.Valid() && forall o :: g.IsOut(o) ==> o in y.bytes
    ensures InputsSized(g, y, Marked(y.bytes))
  {
    forall l | l in g.info && g.info[l].kind.Input?
      ensures OutSlot(l, 0) in y.bytes && |Marked(y.bytes)(l, [], 0)| == y.bytes[OutSlot(l, 0)]
    {
      assert g.info[l].WellShaped() && g.IsOut(OutSlot(l, 0));
    }
  }

  lemma {:induction false} Spoiled(g: Net, y: Layout, t: Store, order: seq<LayerId>, m: nat, n: nat)
    requires m < n < |order| && order[m] != order[n] && Tells(y, t, order, n) && IsRead(g, order[m])
    requires OutSlot(order[m], 0) in y.at && y.at[OutSlot(order[m], 0)] == y.at[OutSlot(order[n], 0)]
    requires OutSlot(order[m], 0) in y.bytes && y.bytes[OutSlot(order[m], 0)] > 0
    requires y.at[OutSlot(order[m], 0)] + y.bytes[OutSlot(order[m], 0)] <= y.size
    ensures !InputsHeld(g, y, Marked(y.bytes), t, order, |order|)
  {
    var b := OutSlot(order[m], 0);
    assert Get(y, t, b)[0] == order[n];
    assert Marked(y.bytes)(order[m], [], 0)[0] == order[m];
    assert !InputHeld(g, y, Marked(y.bytes), t, order[m]);
  }

  lemma {:induction false} UnreadEndsEarly(g: Net, opts: Options, a: LayerId, b: LayerId)
    requires g.Valid() && SharedInput(g, opts, a) && SharedInput(g, opts, b) && a != b && !IsRead(g, a) && Pos(g, a) <= Pos(g, b)
    ensures !Overlap(g, opts, OutSlot(a, 0), OutSlot(b, 0))
  {
    assert a in g.layers && b in g.layers && g.layers[Pos(g, a)] == a && g.layers[Pos(g, b)] == b;
    StepMonotone(g, opts, Pos(g, a), Pos(g, b));
  }

  /** Sharing memory is safe for the inputs, whatever the placement, exactly when the user's list is safe. */
  lemma {:induction false} SharingSafeExactly(g: Net, opts: Options, bytes: map<OutSlot, nat>, order: seq<LayerId>)
    requires g.Valid() && Sorted(g) && (forall o :: g.IsOut(o) ==> o in bytes && bytes[o] > 0) && ListsInputs(g, order)
    ensures AlwaysHeld(g, opts, bytes, order) <==> InputsSafe(g, opts, order)
  {
    if InputsSafe(g, opts, order) {
      forall y: Layout, f: Sem, s: Store | Places(g, opts, bytes, y) && InputsSized(g, y, f) && |s.mem| == y.size
        ensures InputsHeld(g, y, f, Prepared(g, y, f, s, order, |order|), order, |order|)
      {
        PreparedHolds(g, opts, y, f, s, order, |order|);
      }
    } else {
      var m: nat, n: nat :| m < n < |order| && SharedInput(g, opts, order[m]) && SharedInput(g, opts, order[n])
        && IsRead(g, order[m]) && !IsRead(g, order[n]) && Pos(g, order[n]) <= Pos(g, order[m]);
      UnsafeSpoils(g, opts, bytes, order, m, n);
    }
  }

  /** The memory optimizer's promise in terms of blocks: every block gets an address, and two blocks whose closed
      intervals overlap get disjoint bytes. */
  ghost predicate BlocksApart(blocks: seq<Block>, place: map<nat, nat>, size: nat) {
    && (forall b :: b in blocks ==> b.index in place && place[b.index] + b.size <= size)
    && (forall b, c :: b in blocks && c in blocks && b.index != c.index && b.start <= c.end && c.start <= b.end ==>
          place[b.index] + b.size <= place[c.index] || place[c.index] + c.size <= place[b.index])
  }

  lemma {:induction false} BlockOfShared(g: Net, opts: Options, bytes: map<OutSlot, nat>, blocks: seq<Block>,
                                         numbered: seq<OutSlot>, o: OutSlot)
    requires OneBlockEach(g, opts, bytes, blocks, numbered) && Shared(g, opts, o)
    ensures o in numbered && o in bytes && o.layer in g.info && BlockOf(g, opts, bytes, o, IndexOf(numbered, o)) in blocks
  {
    var n := IndexOf(numbered, o);
    assert BlockAt(g, opts, bytes, blocks, numbered, n);
    WithMember(blocks, n, BlockOf(g, opts, bytes, o, n));
  }

  /** Such an assignment of addresses to the blocks of the memory profile is a legal layout of all shared slots. */
  lemma {:induction false} BlocksGiveLayout(g: Net, opts: Options, bytes: map<OutSlot, nat>, blocks: seq<Block>, numbered: seq<OutSlot>,
                                            place: map<nat, nat>, y: Layout)
    requires OneBlockEach(g, opts, bytes, blocks, numbered) && BlocksApart(blocks, place, y.size)
    requires (forall o :: g.IsOut(o) ==> o in bytes) && y.bytes == bytes
    requires forall o :: o in y.at <==> Shared(g, opts, o)
    requires forall o :: o in y.at ==> IndexOf(numbered, o) in place && y.at[o] == place[IndexOf(numbered, o)]
    ensures Places(g, opts, bytes, y)
  {
    forall o | o in y.at
      ensures y.at[o] + y.bytes[o] <= y.size
    {
      BlockOfShared(g, opts, bytes, blocks, numbered, o);
    }
    forall o, p | o in y.at && p in y.at && o != p && Overlap(g, opts, o, p)
      ensures Apart(y, o, p)
    {
      BlockOfShared(g, opts, bytes, blocks, numbered, o);
      BlockOfShared(g, opts, bytes, blocks, numbered, p);
      assert numbered[IndexOf(numbered, o)] == o && numbered[IndexOf(numbered, p)] == p;
    }
  }
}
