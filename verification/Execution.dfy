/**
  The asynchronous execution as a whole: the binding ids are checked, inputs are copied or stand in as imported tensors, the
  workloads run, and the outputs are collected through the tables of the working memory. Every Output gets the value the
  network means.
 */
module Execution {
  import opened Sequences
  import opened NetGraph
  import opened Evaluation
  import opened Ordering
  import opened GraphModel
  import opened MemoryProfile
  import opened SharedMemory
  import opened Connections
  import opened BindingTables
  import opened AsyncExecution
  import opened Loading
  import opened Running
  import LoadedNetwork
  import ReadInputs

  /** A tensor given by the caller for the Input with a binding id. */
  datatype InputTensor = InputTensor(bindingId: int, value: Value)

  ghost function BindingIds(inputs: seq<InputTensor>): (r: seq<int>)
    ensures |r| == |inputs|
    ensures forall k {:trigger r[k]} :: 0 <= k < |r| ==> r[k] == inputs[k].bindingId
  {
    seq(|inputs|, k requires 0 <= k < |inputs| => inputs[k].bindingId)
  }

  method IdsOf(inputs: seq<InputTensor>) returns (ids: seq<int>)
    ensures ids == BindingIds(inputs)
  {
    ids := [];
    var n := 0;
    while n < |inputs|
      invariant n <= |inputs| && ids == BindingIds(inputs[..n])
    {
      assert inputs[..n + 1] == inputs[..n] + [inputs[n]];
      ids := ids + [inputs[n].bindingId];
      n := n + 1;
    }
    assert inputs[..n] == inputs;
  }

  ghost predicate AllKnown(ids: seq<int>, known: map<int, Handle>) {
    forall k {:trigger ids[k]} :: 0 <= k < |ids| ==> ids[k] in known
  }

  /** ValidateBindingIds, for the inputs or the outputs: every id is known and none is given twice. */
  method Validate(ids: seq<int>, known: map<int, Handle>) returns (ok: bool)
    ensures ok <==> NoDup(ids) && AllKnown(ids, known)
  {
    var used: set<int> := {};
    var n := 0;
    NoDupIntro(ids[..0]);
    while n < |ids|
      invariant n <= |ids| && NoDup(ids[..n]) && (forall k :: 0 <= k < n ==> ids[k] in known)
      invariant forall b :: b in used <==> b in ids[..n]
    {
      var id := ids[n];
      NextId(ids, n, id);
      if id !in known || id in used {
        return false;
      }
      used := used + {id};
      n := n + 1;
    }
    assert ids[..n] == ids;
    ok := true;
  }

  lemma {:induction false} NextId(ids: seq<int>, n: nat, id: int)
    requires n < |ids| && NoDup(ids[..n]) && id == ids[n]
    ensures NoDup(ids) ==> id !in ids[..n]
    ensures id !in ids[..n] ==> NoDup(ids[..n + 1])
    ensures forall b :: b in ids[..n + 1] <==> b in ids[..n] || b == id
  {
    assert ids[..n + 1] == ids[..n] + [id];
    if NoDup(ids) {
      forall j | 0 <= j < n
        ensures ids[..n][j] != id
      {
        NoDupDistinct(ids, j, n);
      }
    }
    if id !in ids[..n] {
      AppendMembers(ids[..n], id);
    }
  }

  /** The ids given are those of as many different Inputs, or Outputs, as there are. */
  ghost predicate IdsRight(ids: seq<int>, known: map<int, Handle>, number: nat) {
    |ids| == number && NoDup(ids) && AllKnown(ids, known)
  }

  /** The Input with a binding id. */
  ghost function InputWith(g: Net, b: int): LayerId {
    if exists l: LayerId :: InputOf(g, l, b) then
      var l: LayerId :| InputOf(g, l, b);
      l
    else 0
  }

  ghost function Order(g: Net, ids: seq<int>): (r: seq<LayerId>)
    ensures |r| == |ids|
    ensures forall k {:trigger r[k]} :: 0 <= k < |r| ==> r[k] == InputWith(g, ids[k])
  {
    seq(|ids|, k requires 0 <= k < |ids| => InputWith(g, ids[k]))
  }

  /** The ids are those of all Inputs, each once. */
  ghost predicate Ordered(g: Net, ids: seq<int>) {
    ListsInputs(g, Order(g, ids)) && forall k :: 0 <= k < |ids| ==> InputOf(g, Order(g, ids)[k], ids[k])
  }

  /** As many different known ids as there are Inputs list every Input once. */
  lemma {:induction false} OrderListsInputs(g: Net, t: Tables, ids: seq<int>)
    requires g.Valid() && Partitioned(g) && InputsTabled(g, OwnHandles(g), t, |g.layers|) && IdsRight(ids, t.handles, Inputs(g))
    ensures Ordered(g, ids)
  {
    var order := Order(g, ids);
    forall k | 0 <= k < |ids|
      ensures InputOf(g, order[k], ids[k])
    {
      assert ids[k] in t.handles;
      var l :| InputOf(g, l, ids[k]);
    }
    forall j, k | 0 <= j < k < |order|
      ensures order[j] != order[k]
    {
      NoDupDistinct(ids, j, k);
    }
    NoDupIntro(order);
    EveryInputListed(g, order);
  }

  /** Different Inputs, as many as there are, are all of them. */
  lemma {:induction false} EveryInputListed(g: Net, order: seq<LayerId>)
    requires g.Valid() && Partitioned(g) && NoDup(order) && |order| == Inputs(g)
    requires forall k :: 0 <= k < |order| ==> order[k] in g.info && g.info[order[k]].kind.Input?
    ensures forall l :: l in order <==> l in g.info && g.info[l].kind.Input?
  {
    Sections(g);
    var first := g.layers[..Inputs(g)];
    forall l | l in g.info && g.info[l].kind.Input?
      ensures l in first
    {
      assert l in g.layers && g.layers[Pos(g, l)] == l;
      assert first[Pos(g, l)] == l;
    }
    forall l | l in order
      ensures l in g.info && g.info[l].kind.Input? && l in first
    {
      assert order[IndexOf(order, l)] == l;
    }
    AllListed(order, first);
  }

  /** As many different ones as there are: all. */
  lemma {:induction false} AllListed(order: seq<LayerId>, all: seq<LayerId>)
    requires NoDup(order) && |all| <= |order| && forall l :: l in order ==> l in all
    ensures forall l :: l in all ==> l in order
  {
    MembersAtMost(all);
    NoDupCardinality(order);
    var a, b := Elems(order), Elems(all);
    assert forall l :: l in order <==> l in a;
    assert forall l :: l in all <==> l in b;
    assert b == a + (b - a);
    assert |b - a| == 0;
  }

  /** f takes the caller's tensors for the values of the Inputs. */
  ghost predicate Supplies(g: Net, f: Sem, inputs: seq<InputTensor>) {
    forall k, l :: 0 <= k < |inputs| && InputOf(g, l, inputs[k].bindingId) ==> f(l, [], 0) == inputs[k].value
  }

  /** The first ids are those of the tensors given, for whose slots nothing stands in. */
  ghost predicate GivenFirst(g: Net, inputs: seq<InputTensor>, ids: seq<int>, lent: Lent) {
    && |inputs| <= |ids| && (forall k :: 0 <= k < |inputs| ==> ids[k] == inputs[k].bindingId)
    && (forall k :: 0 <= k < |inputs| ==> OutSlot(Order(g, ids)[k], 0) !in lent.Values)
  }

  /** EnqueueInput for every input tensor, to the handle that the table has for its binding id. */
  method PrepareInputs(g: Net, ghost opts: Options, y: Layout, t: Tables, ghost f: Sem, s: Store, inputs: seq<InputTensor>, ghost ids: seq<int>,
                       ghost lent: Lent)
    returns (s': Store)
    requires g.Valid() && Legal(g, opts, y) && InputsSized(g, y, f) && |s.mem| == y.size && Supplies(g, f, inputs)
    requires InputsTabled(g, OwnHandles(g), t, |g.layers|) && Ordered(g, ids) && GivenFirst(g, inputs, ids, lent)
    ensures Alike(s', Prepared(g, Lend(y, lent), f, s, Order(g, ids), |inputs|), lent)
  {
    s' := s;
    var n: nat := 0;
    while n < |inputs|
      invariant n <= |inputs| && Alike(s', Prepared(g, Lend(y, lent), f, s, Order(g, ids), n), lent)
    {
      var next := n + 1;
      s' := EnqueueInput(g, opts, y, t, f, s, s', inputs, ids, lent, n, next);
      n := next;
    }
  }

  method EnqueueInput(g: Net, ghost opts: Options, y: Layout, t: Tables, ghost f: Sem, ghost start: Store, s: Store, inputs: seq<InputTensor>,
                      ghost ids: seq<int>, ghost lent: Lent, n: nat, ghost next: nat)
    returns (s': Store)
    requires g.Valid() && Legal(g, opts, y) && InputsSized(g, y, f) && |start.mem| == y.size && Supplies(g, f, inputs)
    requires InputsTabled(g, OwnHandles(g), t, |g.layers|) && Ordered(g, ids) && GivenFirst(g, inputs, ids, lent)
    requires n < |inputs| && next == n + 1 && Alike(s, Prepared(g, Lend(y, lent), f, start, Order(g, ids), n), lent)
    ensures Alike(s', Prepared(g, Lend(y, lent), f, start, Order(g, ids), next), lent)
  {
    TensorGiven(g, opts, y, t, f, start, inputs, ids, lent, n, next);
    ghost var o := OutSlot(Order(g, ids)[n], 0);
    PutAlike(y, s, Prepared(g, Lend(y, lent), f, start, Order(g, ids), n), lent, o, inputs[n].value);
    s' := Put(y, s, SlotOf(t.handles[inputs[n].bindingId]), inputs[n].value);
  }

  /** The next tensor goes where it belongs. */
  lemma {:induction false} TensorGiven(g: Net, opts: Options, y: Layout, t: Tables, f: Sem, start: Store, inputs: seq<InputTensor>, ids: seq<int>,
                                       lent: Lent, n: nat, next: nat)
    requires g.Valid() && Legal(g, opts, y) && InputsSized(g, y, f) && |start.mem| == y.size && Supplies(g, f, inputs)
    requires InputsTabled(g, OwnHandles(g), t, |g.layers|) && Ordered(g, ids) && GivenFirst(g, inputs, ids, lent)
    requires n < |inputs| && next == n + 1
    ensures inputs[n].bindingId in t.handles && t.handles[inputs[n].bindingId] == Own(OutSlot(Order(g, ids)[n], 0))
    ensures var o, was := OutSlot(Order(g, ids)[n], 0), Prepared(g, Lend(y, lent), f, start, Order(g, ids), n);
      && |was.mem| == y.size && (o in y.at ==> y.at[o] + |inputs[n].value| <= y.size)
      && Prepared(g, Lend(y, lent), f, start, Order(g, ids), next) == Put(Lend(y, lent), was, o, inputs[n].value)
  {
    var l := Order(g, ids)[n];
    assert InputOf(g, l, ids[n]);
    InputHandle(g, t, l);
    LentIsLegal(g, opts, y, lent);
    PreparedAt(g, opts, Lend(y, lent), f, start, Order(g, ids), n, next);
  }

  lemma {:induction false} LentIsLegal(g: Net, opts: Options, y: Layout, lent: Lent)
    requires Legal(g, opts, y)
    ensures Legal(g, opts, Lend(y, lent))
  {
  }

  lemma {:induction false} InputHandle(g: Net, t: Tables, l: LayerId)
    requires g.Valid() && InputsTabled(g, OwnHandles(g), t, |g.layers|) && l in g.info && g.info[l].kind.Input?
    ensures g.info[l].bindingId in t.handles && t.handles[g.info[l].bindingId] == Own(OutSlot(l, 0))
    ensures g.info[l].bindingId in t.connections
    ensures t.connections[g.info[l].bindingId] == CoordsOf(g, ReadersOf(g, OutSlot(l, 0), |g.layers|, 0))
  {
    assert l in g.layers && g.layers[Pos(g, l)] == l;
    assert InputTabled(g, OwnHandles(g), t, g.layers[Pos(g, l)]);
  }

  /** What stands in for the remaining Inputs is as good as copied. */
  lemma {:induction false} RestLent(g: Net, opts: Options, y: Layout, f: Sem, start: Store, s: Store, order: seq<LayerId>, lent: Lent, a: nat, m: nat)
    requires Legal(g, opts, y) && InputsSized(g, y, f) && ListsInputs(g, order) && |start.mem| == y.size && a <= m <= |order|
    requires Alike(s, Prepared(g, Lend(y, lent), f, start, order, a), lent)
    requires forall k :: a <= k < |order| ==> OutSlot(order[k], 0) in lent.Values
    ensures Alike(s, Prepared(g, Lend(y, lent), f, start, order, m), lent)
    ensures forall k :: a <= k < m ==> HasOwn(f, Prepared(g, Lend(y, lent), f, start, order, m), order[k])
  {
    if a < m {
      var j: nat := m - 1;
      RestLent(g, opts, y, f, start, s, order, lent, a, j);
      LentIsLegal(g, opts, y, lent);
      PreparedAt(g, opts, Lend(y, lent), f, start, order, j, m);
      var t, o, v := Prepared(g, Lend(y, lent), f, start, order, j), OutSlot(order[j], 0), f(order[j], [], 0);
      NextLent(y, s, t, lent, o, v);
      OwnNext(Lend(y, lent), f, t, order, a, j, m);
    }
  }

  lemma {:induction false} OwnNext(z: Layout, f: Sem, t: Store, order: seq<LayerId>, a: nat, j: nat, m: nat)
    requires NoDup(order) && a <= j < |order| && m == j + 1 && OutSlot(order[j], 0) !in z.at
    requires forall k :: a <= k < j ==> HasOwn(f, t, order[k])
    ensures forall k :: a <= k < m ==> HasOwn(f, Put(z, t, OutSlot(order[j], 0), f(order[j], [], 0)), order[k])
  {
    forall k | a <= k < m
      ensures HasOwn(f, Put(z, t, OutSlot(order[j], 0), f(order[j], [], 0)), order[k])
    {
      if k < j {
        NoDupDistinct(order, k, j);
        assert HasOwn(f, t, order[k]);
      }
    }
  }

  ghost predicate HasOwn(f: Sem, t: Store, l: LayerId) {
    OutSlot(l, 0) in t.own && t.own[OutSlot(l, 0)] == f(l, [], 0)
  }

  lemma {:induction false} NextLent(y: Layout, s: Store, t: Store, lent: Lent, o: OutSlot, v: Value)
    requires Alike(s, t, lent) && o in lent.Values
    ensures Alike(s, Put(Lend(y, lent), t, o, v), lent)
  {
    forall p | p !in lent.Values
      ensures SameOwn(s, Put(Lend(y, lent), t, o, v), p)
    {
      assert SameOwn(s, t, p);
    }
  }

  /** The bindings that imports are for. */
  ghost function BoundTo(issued: seq<Tensor>, importIds: seq<nat>): (r: seq<int>)
    ensures |r| == |importIds|
    ensures forall k {:trigger r[k]} :: 0 <= k < |r| ==> r[k] == if importIds[k] < |issued| then issued[importIds[k]].bindingId else 0
  {
    seq(|importIds|, k requires 0 <= k < |importIds| => if importIds[k] < |issued| then issued[importIds[k]].bindingId else 0)
  }

  /** The handle of an import has the import's number, and contents. */
  ghost predicate ImportsHeld(issued: seq<Tensor>, importIds: seq<nat>, values: map<nat, Value>) {
    forall id :: id in importIds && id < |issued| ==> issued[id].handle == Imported(id) && id in values
  }

  ghost predicate SuppliesImported(g: Net, f: Sem, issued: seq<Tensor>, importIds: seq<nat>, values: map<nat, Value>) {
    forall id, l :: id in importIds && id < |issued| && id in values && InputOf(g, l, issued[id].bindingId) ==> f(l, [], 0) == values[id]
  }

  /** The slots that the imports stand in for. */
  ghost function LentBy(g: Net, issued: seq<Tensor>, importIds: seq<nat>): (r: Lent)
    ensures forall id :: id in r <==> id in importIds && id < |issued|
    ensures forall id :: id in r ==> r[id] == OutSlot(InputWith(g, issued[id].bindingId), 0)
  {
    map id: nat | id in importIds && id < |issued| :: OutSlot(InputWith(g, issued[id].bindingId), 0)
  }

  /** ValidateImportedInputID for every import. */
  method BindingsOfImports(imports: Imports, importIds: seq<nat>) returns (r: Result<seq<int>>)
    requires imports.Valid()
    ensures r.Ok? <==> Usable(imports, importIds)
    ensures r.Ok? ==> r.value == BoundTo(imports.issued, importIds)
  {
    var ids: seq<int> := [];
    var n := 0;
    while n < |importIds|
      invariant n <= |importIds| && Usable(imports, importIds[..n]) && ids == BoundTo(imports.issued, importIds[..n])
    {
      assert importIds[n] in importIds && importIds[..n + 1] == importIds[..n] + [importIds[n]];
      var b := imports.Validate(importIds[n]);
      if b.Err? {
        return Err(InvalidArgument);
      }
      ids := ids + [b.value];
      n := n + 1;
    }
    assert importIds[..n] == importIds;
    return Ok(ids);
  }

  /** Known bindings have places and a handle. */
  lemma {:induction false} ImportsTabled(g: Net, t: Tables, imports: Imports, importIds: seq<nat>, ids: seq<int>)
    requires g.Valid() && InputsTabled(g, OwnHandles(g), t, |g.layers|) && AllKnown(ids, t.handles)
    requires forall b :: b in BoundTo(imports.issued, importIds) ==> b in ids
    ensures TabledIds(imports, importIds, t)
  {
    forall id | id in importIds && id < |imports.issued|
      ensures imports.issued[id].bindingId in t.connections && imports.issued[id].bindingId in t.handles
    {
      var b := imports.issued[id].bindingId;
      assert BoundTo(imports.issued, importIds)[IndexOf(importIds, id)] == b;
      assert ids[IndexOf(ids, b)] == b;
      var l :| InputOf(g, l, b);
      InputHandle(g, t, l);
    }
  }

  /** Whoever reads at a place of slot o reads o. */
  lemma {:induction false} PlaceOf(g: Net, o: OutSlot, i: InSlot)
    requires g.Valid() && NoImports(g) && i in g.source
    ensures CoordOf(g, i) in CoordsOf(g, ReadersOf(g, o, |g.layers|, 0)) <==> g.source[i] == o
  {
    var s := ReadersOf(g, o, |g.layers|, 0);
    AllReaders(g, o, i);
    if g.source[i] == o {
      assert CoordsOf(g, s)[IndexOf(s, i)] == CoordOf(g, i);
    }
    if CoordOf(g, i) in CoordsOf(g, s) {
      var j := s[IndexOf(CoordsOf(g, s), CoordOf(g, i))];
      assert j in s;
      AllReaders(g, o, j);
      CoordsDiffer(g, i, j);
    }
  }

  /** The last swap that has put its handle into a cell. */
  lemma {:induction false} LastSwap(cells: map<Coord, Handle>, swaps: seq<Swap>, c: Coord, n: nat) returns (m: nat)
    requires AllInPlace(cells, swaps) && n < |swaps| && c in swaps[n].cells
    ensures m < |swaps| && c in swaps[m].cells && c in cells && cells[c] == swaps[m].imported
    decreases |swaps| - n
  {
    if k :| n < k < |swaps| && c in swaps[k].cells {
      m := LastSwap(cells, swaps, c, k);
    } else {
      assert InPlace(cells, swaps, n);
      m := n;
    }
  }

  /** A swap is for the places of the slot that its import stands in for. */
  lemma {:induction false} SwapPlaces(g: Net, t: Tables, imports: Imports, importIds: seq<nat>, swaps: seq<Swap>, n: nat)
    requires g.Valid() && InputsTabled(g, OwnHandles(g), t, |g.layers|) && SwapsFor(swaps, imports, importIds, t) && n < |swaps|
    ensures importIds[n] in LentBy(g, imports.issued, importIds)
    ensures var o := LentBy(g, imports.issued, importIds)[importIds[n]];
      && swaps[n].cells == CoordsOf(g, ReadersOf(g, o, |g.layers|, 0)) && swaps[n].imported == imports.issued[importIds[n]].handle
      && o.layer in g.info && g.info[o.layer].kind.Input? && g.info[o.layer].bindingId == imports.issued[importIds[n]].bindingId
  {
    assert importIds[n] in importIds && SwapFor(swaps[n], imports, importIds[n], t);
    var b := imports.issued[importIds[n]].bindingId;
    var l :| InputOf(g, l, b);
    assert InputOf(g, InputWith(g, b), b);
    InputHandle(g, t, InputWith(g, b));
  }

  /** With the imports swapped in, every place has a handle for the slot that is read there. */
  lemma {:induction false} SwappedStandIn(g: Net, t: Tables, imports: Imports, importIds: seq<nat>, values: map<nat, Value>, swaps: seq<Swap>,
                                          home: map<Coord, Handle>, inside: map<Coord, Handle>)
    requires g.Valid() && NoImports(g) && InputsTabled(g, OwnHandles(g), t, |g.layers|) && SwapsFor(swaps, imports, importIds, t)
    requires CellsOK(g, OwnHandles(g), home, |g.layers|, 0) && AllInPlace(inside, swaps) && DifferIn(home, inside, swaps)
    requires ImportsHeld(imports.issued, importIds, values)
    ensures AllStandIn(g, LentBy(g, imports.issued, importIds), inside)
  {
    forall i | i in g.source
      ensures CellStandsIn(g, LentBy(g, imports.issued, importIds), inside, i)
    {
      OneStandsIn(g, t, imports, importIds, values, swaps, home, inside, i);
    }
  }

  lemma {:induction false} OneStandsIn(g: Net, t: Tables, imports: Imports, importIds: seq<nat>, values: map<nat, Value>, swaps: seq<Swap>,
                                       home: map<Coord, Handle>, inside: map<Coord, Handle>, i: InSlot)
    requires g.Valid() && NoImports(g) && InputsTabled(g, OwnHandles(g), t, |g.layers|) && SwapsFor(swaps, imports, importIds, t)
    requires CellsOK(g, OwnHandles(g), home, |g.layers|, 0) && AllInPlace(inside, swaps) && DifferIn(home, inside, swaps)
    requires ImportsHeld(imports.issued, importIds, values) && i in g.source
    ensures CellStandsIn(g, LentBy(g, imports.issued, importIds), inside, i)
  {
    var lent, c, o := LentBy(g, imports.issued, importIds), CoordOf(g, i), g.source[i];
    assert g.SourceOK(i) && i.layer in g.layers && CellOK(g, OwnHandles(g), home, |g.layers|, 0, i);
    forall n | 0 <= n < |swaps|
      ensures importIds[n] in lent && (c in swaps[n].cells <==> lent[importIds[n]] == o) && swaps[n].imported == Imported(importIds[n])
    {
      SwapPlaces(g, t, imports, importIds, swaps, n);
      PlaceOf(g, lent[importIds[n]], i);
      assert importIds[n] in importIds;
    }
    if n :| 0 <= n < |swaps| && c in swaps[n].cells {
      var m := LastSwap(inside, swaps, c, n);
    } else {
      NotLent(g, imports.issued, importIds, o);
    }
  }

  lemma {:induction false} NotLent(g: Net, issued: seq<Tensor>, importIds: seq<nat>, o: OutSlot)
    requires forall n :: 0 <= n < |importIds| ==> importIds[n] in LentBy(g, issued, importIds) && LentBy(g, issued, importIds)[importIds[n]] != o
    ensures o !in LentBy(g, issued, importIds).Values
  {
    var lent := LentBy(g, issued, importIds);
    forall id | id in lent
      ensures lent[id] != o
    {
      assert importIds[IndexOf(importIds, id)] == id;
    }
  }

  /** For exported slots the id of the Output whose tensor was imported last. */
  ghost function Owners(t: Tables, ids: seq<int>): map<OutSlot, int> {
    if ids == [] then map[]
    else
      var b := ids[|ids| - 1];
      if b in t.handles then Owners(t, ids[..|ids| - 1])[SlotOf(t.handles[b]) := b] else Owners(t, ids[..|ids| - 1])
  }

  /** ids[k] is the last id for its slot. */
  ghost predicate LastFor(t: Tables, ids: seq<int>, k: nat)
    requires k < |ids|
  {
    forall m :: k < m < |ids| && ids[m] in t.handles && ids[k] in t.handles ==> SlotOf(t.handles[ids[m]]) != SlotOf(t.handles[ids[k]])
  }

  lemma {:induction false} OwnerIsLast(t: Tables, ids: seq<int>, o: OutSlot) returns (k: nat)
    requires o in Owners(t, ids)
    ensures k < |ids| && ids[k] in t.handles && SlotOf(t.handles[ids[k]]) == o && Owners(t, ids)[o] == ids[k] && LastFor(t, ids, k)
  {
    var n := |ids| - 1;
    if ids[n] in t.handles && SlotOf(t.handles[ids[n]]) == o {
      k := n;
    } else {
      k := OwnerIsLast(t, ids[..n], o);
      assert ids[..n][k] == ids[k];
      forall m | k < m < |ids| && ids[m] in t.handles
        ensures SlotOf(t.handles[ids[m]]) != o
      {
        assert m < n ==> ids[..n][m] == ids[m];
      }
    }
  }

  lemma {:induction false} OwnersHave(t: Tables, ids: seq<int>, k: nat)
    requires k < |ids| && ids[k] in t.handles
    ensures SlotOf(t.handles[ids[k]]) in Owners(t, ids)
  {
    var n := |ids| - 1;
    if k < n {
      assert ids[..n][k] == ids[k];
      OwnersHave(t, ids[..n], k);
    }
  }

  /** The owner of a slot is an id exactly if that id is the last one given for the slot. */
  lemma {:induction false} OwnedExactly(t: Tables, ids: seq<int>, k: nat)
    requires NoDup(ids) && k < |ids| && ids[k] in t.handles
    ensures SlotOf(t.handles[ids[k]]) in Owners(t, ids)
    ensures Owners(t, ids)[SlotOf(t.handles[ids[k]])] == ids[k] <==> LastFor(t, ids, k)
  {
    OwnersHave(t, ids, k);
    var m := OwnerIsLast(t, ids, SlotOf(t.handles[ids[k]]));
    DistinctIds(ids, m, k);
  }

  lemma {:induction false} DistinctIds(ids: seq<int>, j: nat, k: nat)
    requires NoDup(ids) && j < |ids| && k < |ids|
    ensures ids[j] == ids[k] <==> j == k
  {
    if j != k {
      NoDupDistinct(ids, if j < k then j else k, if j < k then k else j);
    }
  }

  /** y is the layout before with some slots taken out of the shared memory. */
  ghost predicate TakenOut(before: Layout, y: Layout) {
    && y.bytes == before.bytes && y.size == before.size
    && forall o :: o in y.at ==> o in before.at && y.at[o] == before.at[o]
  }

  /** ImportOutputTensor for every output tensor, if outputs are exported: the handle gets the caller's memory. */
  method ImportOutputs(opts: Options, t: Tables, ids: seq<int>, y: Layout) returns (y': Layout, owners: map<OutSlot, int>)
    requires AllKnown(ids, t.handles)
    ensures owners == if opts.exportOutputs then Owners(t, ids) else map[]
    ensures y' == y.(at := y.at - owners.Keys)
  {
    y', owners := y, map[];
    if !opts.exportOutputs {
      return;
    }
    var n := 0;
    while n < |ids|
      invariant n <= |ids| && owners == Owners(t, ids[..n]) && y' == y.(at := y.at - owners.Keys)
    {
      assert ids[..n + 1][..n] == ids[..n] && ids[..n + 1][n] == ids[n];
      var o := SlotOf(t.handles[ids[n]]);
      y' := y'.(at := y'.at - {o});
      TakenOutNext(y.at, owners, o, ids[n]);
      owners := owners[o := ids[n]];
      n := n + 1;
    }
    assert ids[..n] == ids;
  }

  lemma {:induction false} TakenOutNext(at: map<OutSlot, nat>, owners: map<OutSlot, int>, o: OutSlot, id: int)
    ensures at - owners.Keys - {o} == at - owners[o := id].Keys
  {
    assert owners[o := id].Keys == owners.Keys + {o};
  }

  /** Taking slots of executed layers out keeps what is needed before the first workload. */
  lemma {:induction false} StillHolds(g: Net, y: Layout, y': Layout, v: Assignment, s: Store)
    requires TakenOut(y, y') && Holds(g, y, v, s, 0)
    requires forall o :: o in y.at && o !in y'.at ==> Executed(g, o.layer)
    ensures Holds(g, y', v, s, 0)
  {
    forall o | Needed(g, o, 0)
      ensures o in v && Get(y', s, o) == v[o]
    {
      assert !Executed(g, o.layer) && Get(y', s, o) == Get(y, s, o);
    }
  }

  lemma {:induction false} StillLegal(g: Net, opts: Options, y: Layout, y': Layout)
    requires TakenOut(y, y') && Legal(g, opts, y)
    ensures Legal(g, opts, y')
  {
  }

  /** The tensor for ids[k] is delivered: by copying, or because its memory was the last to be imported. */
  ghost predicate Delivered(opts: Options, t: Tables, ids: seq<int>, k: nat)
    requires k < |ids|
  {
    !opts.exportOutputs || LastFor(t, ids, k)
  }

  /** The first n tensors hold what they should. */
  ghost predicate TensorsOK(opts: Options, y: Layout, t: Tables, s: Store, ids: seq<int>, outputs: map<int, Value>, n: nat) {
    forall k :: 0 <= k < n && k < |ids| ==> TensorOK(opts, y, t, s, ids, outputs, k)
  }

  ghost predicate TensorOK(opts: Options, y: Layout, t: Tables, s: Store, ids: seq<int>, outputs: map<int, Value>, k: nat)
    requires k < |ids|
  {
    && ids[k] in t.handles && (ids[k] in outputs <==> Delivered(opts, t, ids, k))
    && (ids[k] in outputs ==> outputs[ids[k]] == Get(y, s, SlotOf(t.handles[ids[k]])))
  }

  /** What the caller finds in the output tensors. */
  method CollectOutputs(opts: Options, y: Layout, t: Tables, s: Store, ids: seq<int>, owners: map<OutSlot, int>)
    returns (outputs: map<int, Value>)
    requires NoDup(ids) && AllKnown(ids, t.handles) && (opts.exportOutputs ==> owners == Owners(t, ids))
    ensures TensorsOK(opts, y, t, s, ids, outputs, |ids|)
  {
    outputs := map[];
    var n: nat := 0;
    while n < |ids|
      invariant n <= |ids| && TensorsOK(opts, y, t, s, ids, outputs, n)
      invariant forall k :: n <= k < |ids| ==> ids[k] !in outputs
    {
      if opts.exportOutputs {
        OwnedExactly(t, ids, n);
      }
      var o := SlotOf(t.handles[ids[n]]);
      ghost var before := outputs;
      if !opts.exportOutputs || (o in owners && owners[o] == ids[n]) {
        outputs := outputs[ids[n] := Get(y, s, o)];
      }
      OneCollected(opts, y, t, s, ids, before, outputs, n, n + 1);
      n := n + 1;
    }
  }

  lemma {:induction false} OneCollected(opts: Options, y: Layout, t: Tables, s: Store, ids: seq<int>, before: map<int, Value>,
                                        outputs: map<int, Value>, n: nat, n': nat)
    requires NoDup(ids) && n < |ids| && n' == n + 1 && ids[n] in t.handles && TensorsOK(opts, y, t, s, ids, before, n)
    requires forall k :: n <= k < |ids| ==> ids[k] !in before
    requires outputs == if Delivered(opts, t, ids, n) then before[ids[n] := Get(y, s, SlotOf(t.handles[ids[n]]))] else before
    ensures TensorsOK(opts, y, t, s, ids, outputs, n') && forall k :: n' <= k < |ids| ==> ids[k] !in outputs
  {
    forall k | 0 <= k < |ids|
      ensures ids[k] == ids[n] <==> k == n
    {
      DistinctIds(ids, k, n);
    }
    forall k | 0 <= k < n'
      ensures TensorOK(opts, y, t, s, ids, outputs, k)
    {
      assert k < n ==> TensorOK(opts, y, t, s, ids, before, k);
    }
  }

  /** The handle tabled for an Output is that of the slot it reads, whose layer is executed. */
  lemma {:induction false} OutputHandle(g: Net, a: Collected, t: Tables, l: LayerId)
    requires Walkable(g, OwnHandles(g)) && CollectedOK(g, OwnHandles(g), a, |g.layers|) && AllTabled(g, a, t) && OutputsFed(g)
    requires l in g.info && g.info[l].kind.Output?
    ensures InSlot(l, 0) in g.source && g.info[l].bindingId in t.handles
    ensures t.handles[g.info[l].bindingId] == Own(g.source[InSlot(l, 0)]) && Executed(g, g.source[InSlot(l, 0)].layer)
  {
    var o := g.source[InSlot(l, 0)];
    assert OutputTabled(g, a, t, l) && g.SourceOK(InSlot(l, 0));
    OwnDiffer(g);
    FoundExactly(g, OwnHandles(g), a, o);
    assert g.info[o.layer].WellShaped();
  }

  /** Only slots of executed layers are exported. */
  lemma {:induction false} ExportedAreExecuted(g: Net, a: Collected, t: Tables, ids: seq<int>)
    requires Walkable(g, OwnHandles(g)) && CollectedOK(g, OwnHandles(g), a, |g.layers|) && AllTabled(g, a, t) && OutputsFed(g)
    ensures forall o :: o in Owners(t, ids) ==> Executed(g, o.layer)
  {
    forall o | o in Owners(t, ids)
      ensures Executed(g, o.layer)
    {
      var k := OwnerIsLast(t, ids, o);
      var l :| OutputOf(g, l, ids[k]);
      OutputHandle(g, a, t, l);
    }
  }

  /** From position a of the order on, imported tensors with the right contents stand in, and for nothing else. */
  ghost predicate RestIsLent(g: Net, f: Sem, ids: seq<int>, a: nat, lent: Lent, values: map<nat, Value>) {
    && (forall k :: a <= k < |ids| ==> OutSlot(Order(g, ids)[k], 0) in lent.Values)
    && (forall id :: id in lent ==> exists k: nat :: LentFor(g, f, ids, a, lent, values, id, k))
  }

  ghost predicate LentFor(g: Net, f: Sem, ids: seq<int>, a: nat, lent: Lent, values: map<nat, Value>, id: nat, k: nat)
    requires id in lent
  {
    a <= k < |ids| && lent[id] == OutSlot(Order(g, ids)[k], 0) && id in values && f(Order(g, ids)[k], [], 0) == values[id]
  }

  /** Where an import's binding stands among the ids. */
  lemma {:induction false} ImportAt(g: Net, f: Sem, inputs: seq<InputTensor>, issued: seq<Tensor>, importIds: seq<nat>, values: map<nat, Value>,
                                    ids: seq<int>, n: nat, k: nat)
    requires ids == BindingIds(inputs) + BoundTo(issued, importIds) && Ordered(g, ids)
    requires ImportsHeld(issued, importIds, values) && SuppliesImported(g, f, issued, importIds, values)
    requires n < |importIds| && importIds[n] < |issued| && k == |inputs| + n
    ensures importIds[n] in LentBy(g, issued, importIds)
    ensures LentFor(g, f, ids, |inputs|, LentBy(g, issued, importIds), values, importIds[n], k)
  {
    assert importIds[n] in importIds;
    assert ids[k] == BoundTo(issued, importIds)[n];
    assert InputOf(g, Order(g, ids)[k], ids[k]);
  }

  /** The ids of the tensors given come first, those of the imports after them. */
  lemma {:induction false} ImportsAreRest(g: Net, f: Sem, inputs: seq<InputTensor>, issued: seq<Tensor>, importIds: seq<nat>, values: map<nat, Value>,
                                          ids: seq<int>)
    requires ids == BindingIds(inputs) + BoundTo(issued, importIds) && Ordered(g, ids)
    requires ImportsHeld(issued, importIds, values) && SuppliesImported(g, f, issued, importIds, values)
    requires forall id :: id in importIds ==> id < |issued|
    ensures GivenFirst(g, inputs, ids, LentBy(g, issued, importIds)) && InputsLent(g, LentBy(g, issued, importIds))
    ensures RestIsLent(g, f, ids, |inputs|, LentBy(g, issued, importIds), values)
  {
    var lent, order := LentBy(g, issued, importIds), Order(g, ids);
    forall k | |inputs| <= k < |ids|
      ensures OutSlot(order[k], 0) in lent.Values
    {
      var n := k - |inputs|;
      assert importIds[n] in importIds;
      ImportAt(g, f, inputs, issued, importIds, values, ids, n, k);
      assert lent[importIds[n]] in lent.Values;
    }
    forall id | id in lent
      ensures exists k: nat :: LentFor(g, f, ids, |inputs|, lent, values, id, k)
    {
      var n := IndexOf(importIds, id);
      assert importIds[n] == id;
      ImportAt(g, f, inputs, issued, importIds, values, ids, n, |inputs| + n);
    }
    LentAreOthers(g, f, ids, |inputs|, lent, values);
  }

  lemma {:induction false} LentAreOthers(g: Net, f: Sem, ids: seq<int>, a: nat, lent: Lent, values: map<nat, Value>)
    requires Ordered(g, ids) && RestIsLent(g, f, ids, a, lent, values)
    ensures InputsLent(g, lent)
    ensures forall k :: 0 <= k < a && k < |ids| ==> OutSlot(Order(g, ids)[k], 0) !in lent.Values
  {
    var order := Order(g, ids);
    forall id | id in lent
      ensures lent[id].layer in g.info && g.info[lent[id].layer].kind.Input?
      ensures forall k :: 0 <= k < a && k < |ids| ==> OutSlot(order[k], 0) != lent[id]
    {
      var m: nat :| LentFor(g, f, ids, a, lent, values, id, m);
      assert InputOf(g, order[m], ids[m]);
      forall k | 0 <= k < a && k < |ids|
        ensures order[k] != order[m]
      {
        NoDupDistinct(order, k, m);
      }
    }
  }

  /** Once the tensors given have been copied, everything that is read of Inputs and Constants is there: copied, or in a tensor
      that stands in. */
  lemma {:induction false} InputsStand(g: Net, opts: Options, y: Layout, f: Sem, s: Store, s': Store, ids: seq<int>, a: nat, lent: Lent,
                                       values: map<nat, Value>)
    requires Loadable(g, opts) && Acyclic(g) && y.size == |s.mem| && Legal(g, opts, y) && Sized(g, y, Meaning(g, f)) && ConstantsHeld(g, f, s)
    requires Ordered(g, ids) && a <= |ids| && RestIsLent(g, f, ids, a, lent, values)
    requires Alike(s', Prepared(g, Lend(y, lent), f, s, Order(g, ids), a), lent)
    ensures var t := Prepared(g, Lend(y, lent), f, s, Order(g, ids), |ids|);
      Alike(s', t, lent) && Filled(t, lent, values) && Holds(g, Lend(y, lent), Meaning(g, f), t, 0)
  {
    var order, z := Order(g, ids), Lend(y, lent);
    var t := Prepared(g, z, f, s, order, |ids|);
    LentIsLegal(g, opts, y, lent);
    MeaningSized(g, z, f);
    MeaningSized(g, y, f);
    RestLent(g, opts, y, f, s, s', order, lent, a, |ids|);
    LentFilled(g, f, t, ids, a, lent, values);
    InputsThere(g, opts, z, f, s, order);
  }

  lemma {:induction false} LentFilled(g: Net, f: Sem, t: Store, ids: seq<int>, a: nat, lent: Lent, values: map<nat, Value>)
    requires RestIsLent(g, f, ids, a, lent, values) && forall k :: a <= k < |ids| ==> HasOwn(f, t, Order(g, ids)[k])
    ensures Filled(t, lent, values)
  {
    forall id | id in lent
      ensures id in values && lent[id] in t.own && t.own[lent[id]] == values[id]
    {
      var k: nat :| LentFor(g, f, ids, a, lent, values, id, k);
      assert HasOwn(f, t, Order(g, ids)[k]);
    }
  }

  lemma {:induction false} InputsThere(g: Net, opts: Options, z: Layout, f: Sem, s: Store, order: seq<LayerId>)
    requires g.Valid() && Sorted(g) && ReadInputs.InputsRead(g) && Acyclic(g) && z.size == |s.mem| && Legal(g, opts, z)
    requires InputsSized(g, z, f) && ConstantsHeld(g, f, s) && ListsInputs(g, order)
    ensures Holds(g, z, Meaning(g, f), Prepared(g, z, f, s, order, |order|), 0)
  {
    ReadInputs.ReadInputsAreSafe(g, opts, order);
    PreparedHolds(g, opts, z, f, s, order, |order|);
    PreparedConstants(g, opts, z, f, s, order, |order|);
    RunBegins(g, opts, z, f, Meaning(g, f), Prepared(g, z, f, s, order, |order|), order);
  }

  /** The workloads can run, wherever exported slots went. */
  lemma {:induction false} RunReady(g: Net, opts: Options, before: Layout, y: Layout, gone: set<OutSlot>, lent: Lent, d: Descriptors,
                                    v: Assignment, s: Store, t: Store)
    requires Legal(g, opts, before) && Sized(g, before, v) && InputsLent(g, lent)
    requires y == before.(at := before.at - gone) && forall o :: o in gone ==> Executed(g, o.layer)
    requires Alike(s, t, lent) && Filled(t, lent, d.values) && Holds(g, Lend(before, lent), v, t, 0)
    ensures Stands(g, opts, y, lent, d, v, s, t) && Holds(g, Lend(y, lent), v, t, 0)
  {
    StillLegal(g, opts, before, y);
    LentIsLegal(g, opts, y, lent);
    StillHolds(g, Lend(before, lent), Lend(y, lent), v, t);
  }

  /** No Output that is given later reads the same slot as Output l, which has the k-th id. */
  ghost predicate GivenLast(g: Net, ids: seq<int>, l: LayerId, k: nat) {
    forall m, n :: k < n < |ids| && OutputOf(g, m, ids[n]) && InSlot(l, 0) in g.source && InSlot(m, 0) in g.source ==>
      g.source[InSlot(m, 0)] != g.source[InSlot(l, 0)]
  }

  /** What the caller finds for Output l: copied, the value the network means; exported, the same for the Output that is given
      last of those that read its slot, and nothing for the others. */
  ghost predicate Returned(g: Net, opts: Options, f: Sem, ids: seq<int>, outputs: map<int, Value>, l: LayerId)
    requires Acyclic(g) && g.Linked()
  {
    forall k :: 0 <= k < |ids| && OutputOf(g, l, ids[k]) ==>
      && (ids[k] in outputs <==> !opts.exportOutputs || GivenLast(g, ids, l, k))
      && (ids[k] in outputs ==> outputs[ids[k]] == Reaching(g, f, l))
  }

  lemma {:induction false} DeliveredExactly(g: Net, opts: Options, a: Collected, t: Tables, ids: seq<int>, l: LayerId, k: nat)
    requires Walkable(g, OwnHandles(g)) && CollectedOK(g, OwnHandles(g), a, |g.layers|) && AllTabled(g, a, t) && OutputsFed(g)
    requires AllKnown(ids, t.handles) && k < |ids| && OutputOf(g, l, ids[k])
    ensures Delivered(opts, t, ids, k) <==> !opts.exportOutputs || GivenLast(g, ids, l, k)
  {
    OutputHandle(g, a, t, l);
    forall n | k < n < |ids|
      ensures exists m :: OutputOf(g, m, ids[n])
      ensures forall m :: OutputOf(g, m, ids[n]) ==>
        InSlot(m, 0) in g.source && SlotOf(t.handles[ids[n]]) == g.source[InSlot(m, 0)]
    {
      assert ids[n] in t.handles;
      forall m | OutputOf(g, m, ids[n])
        ensures InSlot(m, 0) in g.source && SlotOf(t.handles[ids[n]]) == g.source[InSlot(m, 0)]
      {
        OutputHandle(g, a, t, m);
      }
    }
  }

  lemma {:induction false} ReturnedRight(g: Net, opts: Options, a: Collected, outputsTable: Tables, y: Layout, lent: Lent, d: Descriptors, f: Sem,
                                         s: Store, t: Store, ids: seq<int>, outputs: map<int, Value>, l: LayerId)
    requires Walkable(g, OwnHandles(g)) && CollectedOK(g, OwnHandles(g), a, |g.layers|) && AllTabled(g, a, outputsTable) && OutputsFed(g)
    requires Acyclic(g) && Holds(g, Lend(y, lent), Meaning(g, f), t, FirstOutput(g)) && Stands(g, opts, y, lent, d, Meaning(g, f), s, t)
    requires AllKnown(ids, outputsTable.handles) && TensorsOK(opts, y, outputsTable, s, ids, outputs, |ids|)
    ensures Returned(g, opts, f, ids, outputs, l)
  {
    forall k | 0 <= k < |ids| && OutputOf(g, l, ids[k])
      ensures ids[k] in outputs <==> !opts.exportOutputs || GivenLast(g, ids, l, k)
      ensures ids[k] in outputs ==> outputs[ids[k]] == Reaching(g, f, l)
    {
      assert TensorOK(opts, y, outputsTable, s, ids, outputs, k);
      DeliveredExactly(g, opts, a, outputsTable, ids, l, k);
      OutputHandle(g, a, outputsTable, l);
      OutputReads(g, Lend(y, lent), f, t, l);
      assert g.source[InSlot(l, 0)] !in lent.Values;
      GetAlike(y, s, t, lent, g.source[InSlot(l, 0)]);
    }
  }

  /** The imported tensors stand in where the inputs' tables say. */
  method SwapImports(g: Net, ghost opts: Options, ghost bytes: map<OutSlot, nat>, w: Working, imports: Imports, importIds: seq<nat>,
                     ghost values: map<nat, Value>, ghost ids: seq<int>)
    returns (swaps: seq<Swap>, inside: map<Coord, Handle>)
    requires Loadable(g, opts) && Loaded(g, opts, bytes, w) && imports.Valid() && Usable(imports, importIds)
    requires ImportsHeld(imports.issued, importIds, values) && AllKnown(ids, w.inputs.handles)
    requires forall b :: b in BoundTo(imports.issued, importIds) ==> b in ids
    ensures AtHome(w.a.inputs, swaps) && DifferIn(w.a.inputs, inside, swaps)
    ensures AllStandIn(g, LentBy(g, imports.issued, importIds), inside)
  {
    ImportsTabled(g, w.inputs, imports, importIds, ids);
    var r := CollectSwaps(imports, importIds, w.inputs);
    swaps := r.value;
    SwapsAtHome(g, w.inputs, imports, importIds, swaps, w.a.inputs);
    inside := SwapIn(w.a.inputs, swaps);
    SwappedStandIn(g, w.inputs, imports, importIds, values, swaps, w.a.inputs, inside);
  }

  lemma {:induction false} SwapsAtHome(g: Net, t: Tables, imports: Imports, importIds: seq<nat>, swaps: seq<Swap>, home: map<Coord, Handle>)
    requires g.Valid() && InputsTabled(g, OwnHandles(g), t, |g.layers|) && SwapsFor(swaps, imports, importIds, t)
    requires CellsOK(g, OwnHandles(g), home, |g.layers|, 0)
    ensures AtHome(home, swaps)
  {
    forall n, c | 0 <= n < |swaps| && c in swaps[n].cells
      ensures c in home && home[c] == swaps[n].own
    {
      SwapPlaces(g, t, imports, importIds, swaps, n);
      assert SwapFor(swaps[n], imports, importIds[n], t);
      var o := LentBy(g, imports.issued, importIds)[importIds[n]];
      InputHandle(g, t, o.layer);
      CoordsHold(g, OwnHandles(g), home, o);
    }
  }

  /** Preparing the tensors, running the queue, collecting the outputs and putting the handles back. */
  method Run(g: Net, opts: Options, ghost bytes: map<OutSlot, nat>, w: Working, f: Sem, s: Store, inputs: seq<InputTensor>, imports: Imports,
             importIds: seq<nat>, values: map<nat, Value>, outputs: seq<int>, ghost ids: seq<int>)
    returns (r: map<int, Value>, cells: map<Coord, Handle>)
    requires Loadable(g, opts) && Acyclic(g) && Loaded(g, opts, bytes, w) && imports.Valid() && Usable(imports, importIds)
    requires ImportsHeld(imports.issued, importIds, values) && SuppliesImported(g, f, imports.issued, importIds, values)
    requires |s.mem| == w.y.size && Sized(g, w.y, Meaning(g, f)) && ConstantsHeld(g, f, s) && Supplies(g, f, inputs)
    requires ids == BindingIds(inputs) + BoundTo(imports.issued, importIds) && Ordered(g, ids) && AllKnown(ids, w.inputs.handles)
    requires NoDup(outputs) && AllKnown(outputs, w.outputs.handles)
    ensures forall l :: Returned(g, opts, f, outputs, r, l)
    ensures cells == w.a.inputs
  {
    ghost var lent, t := LentBy(g, imports.issued, importIds), s;
    MeaningSized(g, w.y, f);
    ImportsAreRest(g, f, inputs, imports.issued, importIds, values, ids);
    var s' := PrepareInputs(g, opts, w.y, w.inputs, f, s, inputs, ids, lent);
    InputsStand(g, opts, w.y, f, s, s', ids, |inputs|, lent, values);
    t := Prepared(g, Lend(w.y, lent), f, s, Order(g, ids), |ids|);
    var swaps, inside := SwapImports(g, opts, bytes, w, imports, importIds, values, ids);
    var y, owners := ImportOutputs(opts, w.outputs, outputs, w.y);
    ExportedAreExecuted(g, w.a, w.outputs, outputs);
    var d := Descriptors(inside, w.a.outputs, values);
    RunReady(g, opts, w.y, y, owners.Keys, lent, d, Meaning(g, f), s', t);
    s', t := RunQueue(g, opts, w.queue, y, lent, d, f, Meaning(g, f), s', t);
    r := CollectOutputs(opts, y, w.outputs, s', outputs, owners);
    forall l
      ensures Returned(g, opts, f, outputs, r, l)
    {
      ReturnedRight(g, opts, w.a, w.outputs, y, lent, d, f, s', t, outputs, r, l);
    }
    cells := Reset(inside, swaps, w.a.inputs);
  }

  /** The ids of a call can be used. */
  ghost predicate CallRight(numInputs: nat, numOutputs: nat, w: Working, inputs: seq<InputTensor>, imports: Imports, importIds: seq<nat>,
                            outputs: seq<int>)
    reads imports
  {
    && Usable(imports, importIds)
    && IdsRight(BindingIds(inputs) + BoundTo(imports.issued, importIds), w.inputs.handles, numInputs)
    && IdsRight(outputs, w.outputs.handles, numOutputs)
  }

  /** The checks at the beginning of Execute. */
  method CheckCall(numInputs: nat, numOutputs: nat, w: Working, inputs: seq<InputTensor>, imports: Imports, importIds: seq<nat>, outputs: seq<int>)
    returns (r: Result<seq<int>>)
    requires imports.Valid()
    ensures r.Ok? <==> CallRight(numInputs, numOutputs, w, inputs, imports, importIds, outputs)
    ensures r.Ok? ==> r.value == BindingIds(inputs) + BoundTo(imports.issued, importIds)
  {
    if |inputs| + |importIds| != numInputs || |outputs| != numOutputs {
      return Err(InvalidArgument);
    }
    var given := IdsOf(inputs);
    var imported := BindingsOfImports(imports, importIds);
    if imported.Err? {
      return Err(InvalidArgument);
    }
    var inputsOk := Validate(given + imported.value, w.inputs.handles);
    var outputsOk := Validate(outputs, w.outputs.handles);
    return if inputsOk && outputsOk then Ok(given + imported.value) else Err(InvalidArgument);
  }

  /** Execute, with tensors that have been imported for some of the Inputs. It accepts exactly the calls that give every Input and
      every Output once, with imports that can be used. The descriptors hold afterwards what they held before. */
  method Execute(g: Net, opts: Options, ghost bytes: map<OutSlot, nat>, numInputs: nat, numOutputs: nat, w: Working, f: Sem, s: Store,
                 inputs: seq<InputTensor>, imports: Imports, importIds: seq<nat>, values: map<nat, Value>, outputs: seq<int>)
    returns (r: Result<map<int, Value>>, cells: map<Coord, Handle>)
    requires Loadable(g, opts) && Acyclic(g) && Loaded(g, opts, bytes, w) && numInputs == Inputs(g) && numOutputs == Bound(g, 2)
    requires imports.Valid() && ImportsHeld(imports.issued, importIds, values)
    requires |s.mem| == w.y.size && Sized(g, w.y, Meaning(g, f)) && ConstantsHeld(g, f, s)
    requires Supplies(g, f, inputs) && SuppliesImported(g, f, imports.issued, importIds, values)
    ensures r.Ok? <==> CallRight(numInputs, numOutputs, w, inputs, imports, importIds, outputs)
    ensures r.Ok? ==> forall l :: Returned(g, opts, f, outputs, r.value, l)
    ensures cells == w.a.inputs
  {
    cells := w.a.inputs;
    var ids := CheckCall(numInputs, numOutputs, w, inputs, imports, importIds, outputs);
    if ids.Err? {
      return Err(InvalidArgument), cells;
    }
    OrderListsInputs(g, w.inputs, ids.value);
    var returned;
    returned, cells := Run(g, opts, bytes, w, f, s, inputs, imports, importIds, values, outputs, ids.value);
    r := Ok(returned);
  }

  /** A call that is accepted gives every Output. */
  lemma {:induction false} EveryOutputGiven(g: Net, a: Collected, t: Tables, ids: seq<int>, l: LayerId) returns (k: nat)
    requires g.Valid() && Partitioned(g) && LoadedNetwork.BindingsDiffer(g, 2) && AllTabled(g, a, t)
    requires IdsRight(ids, t.handles, Bound(g, 2)) && l in g.info && g.info[l].kind.Output?
    ensures k < |ids| && OutputOf(g, l, ids[k])
  {
    var order := seq(|ids|, j requires 0 <= j < |ids| => OutputWith(g, ids[j]));
    forall j | 0 <= j < |ids|
      ensures OutputOf(g, order[j], ids[j])
    {
      assert ids[j] in t.handles;
      var m :| OutputOf(g, m, ids[j]);
    }
    forall i, j | 0 <= i < j < |order|
      ensures order[i] != order[j]
    {
      NoDupDistinct(ids, i, j);
    }
    NoDupIntro(order);
    EveryOutputListed(g, order, l);
    k := IndexOf(order, l);
  }

  ghost function OutputWith(g: Net, b: int): LayerId {
    if exists l: LayerId :: OutputOf(g, l, b) then
      var l: LayerId :| OutputOf(g, l, b);
      l
    else 0
  }

  lemma {:induction false} EveryOutputListed(g: Net, order: seq<LayerId>, l: LayerId)
    requires g.Valid() && Partitioned(g) && NoDup(order) && |order| == Bound(g, 2)
    requires forall k :: 0 <= k < |order| ==> order[k] in g.info && g.info[order[k]].kind.Output?
    requires l in g.info && g.info[l].kind.Output?
    ensures l in order
  {
    Sections(g);
    var last := g.layers[FirstOutput(g)..];
    forall m | m in g.info && g.info[m].kind.Output?
      ensures m in last
    {
      assert m in g.layers && g.layers[Pos(g, m)] == m;
      assert last[Pos(g, m) - FirstOutput(g)] == m;
    }
    forall m | m in order
      ensures m in last
    {
      assert order[IndexOf(order, m)] == m;
    }
    AllListed(order, last);
  }
}
