/** Pre-imported tensors of an asynchronous network, and how an execution swaps their handles in and out. */
module AsyncExecution {
  import opened Sequences
  import opened NetGraph
  import opened GraphModel
  import opened Connections
  import opened BindingTables
  import LoadedNetwork
  import ReadInputs

  datatype Option<+T> = None | Some(value: T)

  /** A pre-imported tensor. The handle is gone once the import has been cleared. */
  datatype Pin = Pin(bindingId: int, handle: Option<Handle>)

  /** A tensor offered for import: its binding id, the handle created for it, and whether the backend takes it. */
  datatype Tensor = Tensor(bindingId: int, handle: Handle, importable: bool)

  function Pinned(t: Tensor): Pin {
    Pin(t.bindingId, Some(t.handle))
  }

  /** The ids from a on, one per tensor. */
  function IdsFrom(a: nat, n: nat): (r: seq<nat>)
    ensures |r| == n
    ensures forall k {:trigger r[k]} :: 0 <= k < n ==> r[k] == a + k
  {
    seq(n, k requires 0 <= k => a + k)
  }

  /** The pins with the given ids cleared. */
  ghost function Cleared(pins: seq<Pin>, ids: seq<nat>): (r: seq<Pin>)
    ensures |r| == |pins|
    ensures forall k {:trigger r[k]} :: 0 <= k < |r| ==> r[k] == if k in ids then Pin(pins[k].bindingId, None) else pins[k]
  {
    seq(|pins|, k requires 0 <= k < |pins| => if k in ids then Pin(pins[k].bindingId, None) else pins[k])
  }

  /** All ids are known, not cleared before, and given once. */
  ghost predicate Clearable(pins: seq<Pin>, ids: seq<nat>) {
    NoDup(ids) && forall id :: id in ids ==> id < |pins| && pins[id].handle.Some?
  }

  lemma {:induction false} ClearedNext(pins: seq<Pin>, ids: seq<nat>, n: nat)
    requires n < |ids| && Clearable(pins, ids[..n]) && ids[n] < |pins|
    ensures Cleared(pins, ids[..n])[ids[n]].handle.Some? <==> Clearable(pins, ids[..n + 1])
    ensures Cleared(pins, ids[..n + 1]) == Cleared(pins, ids[..n])[ids[n] := Pin(pins[ids[n]].bindingId, None)]
  {
    var s, t := ids[..n], ids[..n + 1];
    assert t == s + [ids[n]];
    if ids[n] !in s {
      AppendMembers(s, ids[n]);
    } else {
      var k := IndexOf(s, ids[n]);
      assert t[k] == t[n] && t[n] in t;
      if NoDup(t) {
        NoDupDistinct(t, k, n);
      }
    }
  }

  lemma {:induction false} ClearablePrefix(pins: seq<Pin>, ids: seq<nat>, n: nat)
    requires n <= |ids| && Clearable(pins, ids)
    ensures Clearable(pins, ids[..n])
  {
    forall i, j | 0 <= i < j < n
      ensures ids[..n][i] != ids[..n][j]
    {
      NoDupDistinct(ids, i, j);
    }
    NoDupIntro(ids[..n]);
    forall id | id in ids[..n]
      ensures id < |pins| && pins[id].handle.Some?
    {
      assert id in ids;
    }
  }

  /** The list of pins holds what was issued, in order, without the handles that were cleared. */
  ghost predicate Records(pins: seq<Pin>, issued: seq<Tensor>, cleared: set<nat>) {
    && |pins| == |issued| && (forall id :: id in cleared ==> id < |issued|)
    && forall id :: 0 <= id < |pins| ==> PinOK(pins[id], issued[id], id in cleared)
  }

  ghost predicate PinOK(p: Pin, t: Tensor, gone: bool) {
    p == Pin(t.bindingId, if gone then None else Some(t.handle))
  }

  lemma {:induction false} RecordsIssued(pins: seq<Pin>, issued: seq<Tensor>, cleared: set<nat>, t: Tensor)
    requires Records(pins, issued, cleared)
    ensures Records(pins + [Pinned(t)], issued + [t], cleared)
  {
    forall id | 0 <= id < |pins| + 1
      ensures PinOK((pins + [Pinned(t)])[id], (issued + [t])[id], id in cleared)
    {
      assert id < |pins| ==> PinOK(pins[id], issued[id], id in cleared);
    }
  }

  lemma {:induction false} RecordsCleared(pins: seq<Pin>, issued: seq<Tensor>, cleared: set<nat>, id: nat)
    requires Records(pins, issued, cleared) && id < |pins|
    ensures Records(pins[id := Pin(pins[id].bindingId, None)], issued, cleared + {id})
  {
    var pins', cleared' := pins[id := Pin(pins[id].bindingId, None)], cleared + {id};
    forall k | 0 <= k < |pins|
      ensures PinOK(pins'[k], issued[k], k in cleared')
    {
      assert PinOK(pins[k], issued[k], k in cleared);
    }
  }

  /** How a request to clear imports ends: all cleared, refused with an exception, or with an access past the end of
      the list. */
  datatype Clearing = Done | Refused | PastTheEnd

  /** The n-th id is the first that cannot be cleared. */
  ghost predicate StopsAt(pins: seq<Pin>, ids: seq<nat>, n: nat)
    requires n < |ids|
  {
    Clearable(pins, ids[..n]) && !Clearable(pins, ids[..n + 1])
  }

  lemma {:induction false} ClearedForGood(before: seq<Pin>, pins: seq<Pin>, issued: seq<Tensor>, cleared: set<nat>, ids: seq<nat>)
    requires Records(pins, issued, cleared) && Clearable(before, ids) && pins == Cleared(before, ids)
    ensures forall id :: id in ids ==> id in cleared
  {
    forall id | id in ids
      ensures id in cleared
    {
      assert PinOK(pins[id], issued[id], id in cleared);
    }
  }

  /** The import bookkeeping for the inputs, or for the outputs, of an asynchronous network. */
  class Imports {
    var pins: seq<Pin>
    var nextId: nat
    ghost var issued: seq<Tensor>
    ghost var cleared: set<nat>

    /** The next id is the length of the list; every id ever issued tells its binding, and has its handle until it is cleared. */
    ghost predicate Valid()
      reads this
    {
      nextId == |pins| && Records(pins, issued, cleared)
    }

    constructor ()
      ensures Valid() && issued == [] && cleared == {}
    {
      pins, nextId, issued, cleared := [], 0, [], {};
    }

    /** One tensor is imported. */
    method Issue(t: Tensor) returns (id: nat)
      requires Valid()
      modifies this`pins, this`nextId, this`issued
      ensures Valid() && id == old(nextId) && pins == old(pins) + [Pinned(t)] && issued == old(issued) + [t]
    {
      RecordsIssued(pins, issued, cleared, t);
      id := nextId;
      nextId := nextId + 1;
      pins, issued := pins + [Pinned(t)], issued + [t];
    }

    /** ImportInputs and ImportOutputs. Tensors before one that is refused stay imported. */
    method Import(tensors: seq<Tensor>, known: set<int>) returns (r: Result<seq<nat>>)
      requires Valid()
      modifies this`pins, this`nextId, this`issued
      ensures Valid()
      ensures r.Ok? <==> forall t :: t in tensors ==> t.bindingId in known && t.importable
      ensures r.Ok? ==> r.value == IdsFrom(old(nextId), |tensors|) && issued == old(issued) + tensors
      ensures r.Err? ==> exists n: nat :: n < |tensors| && (tensors[n].bindingId !in known || !tensors[n].importable)
                                         && issued == old(issued) + tensors[..n]
      ensures |old(issued)| <= |issued| && issued[..|old(issued)|] == old(issued)
      ensures forall k :: |old(issued)| <= k < |issued| ==> issued[k].bindingId in known && issued[k].importable
    {
      var ids: seq<nat> := [];
      var n: nat := 0;
      assert issued == issued + tensors[..0];
      while n < |tensors|
        invariant n <= |tensors| && Valid() && issued == old(issued) + tensors[..n]
        invariant ids == IdsFrom(old(nextId), n) && nextId == old(nextId) + n
        invariant forall t :: t in tensors[..n] ==> t.bindingId in known && t.importable
      {
        var t := tensors[n];
        assert t in tensors;
        if t.bindingId !in known || !t.importable {
          return Err(InvalidArgument);
        }
        assert tensors[..n + 1] == tensors[..n] + [t];
        var id := Issue(t);
        ids := ids + [id];
        n := n + 1;
      }
      assert tensors[..n] == tensors;
      return Ok(ids);
    }

    /** One import is cleared, unless it was before. */
    method ClearOne(id: nat) returns (ok: bool)
      requires Valid() && id < |pins|
      modifies this`pins, this`cleared
      ensures Valid() && ok == old(pins[id].handle.Some?)
      ensures !ok ==> pins == old(pins) && cleared == old(cleared)
      ensures ok ==> pins == old(pins)[id := Pin(old(pins)[id].bindingId, None)] && cleared == old(cleared) + {id}
    {
      if pins[id].handle.None? {
        return false;
      }
      RecordsCleared(pins, issued, cleared, id);
      pins, cleared := pins[id := Pin(pins[id].bindingId, None)], cleared + {id};
      return true;
    }

    /** The n-th of several ids. */
    method ClearNext(ids: seq<nat>, n: nat, ghost before: seq<Pin>) returns (r: Clearing)
      requires Valid() && n < |ids| && Clearable(before, ids[..n]) && pins == Cleared(before, ids[..n])
      modifies this`pins, this`cleared
      ensures Valid() && old(cleared) <= cleared
      ensures r.Done? ==> Clearable(before, ids[..n + 1]) && pins == Cleared(before, ids[..n + 1])
      ensures !r.Done? ==> StopsAt(before, ids, n) && !Clearable(before, ids)
      ensures !r.Done? ==> pins == old(pins) && (r.PastTheEnd? <==> ids[n] == |pins|)
    {
      NextClearable(before, ids, n);
      if ids[n] >= |pins| {
        return if ids[n] > |pins| then Refused else PastTheEnd;
      }
      ClearedNext(before, ids, n);
      var ok := ClearOne(ids[n]);
      return if ok then Done else Refused;
    }

    /** ClearImportedInputs and ClearImportedOutputs. The test for unknown ids lets the length of the list pass; then
        the access that follows is past the end. */
    method Clear(ids: seq<nat>) returns (r: Clearing)
      requires Valid()
      modifies this`pins, this`cleared
      ensures Valid() && old(cleared) <= cleared
      ensures r.Done? <==> Clearable(old(pins), ids)
      ensures r.Done? ==> pins == Cleared(old(pins), ids) && forall id :: id in ids ==> id in cleared
      ensures !r.Done? ==> exists n: nat :: n < |ids| && StopsAt(old(pins), ids, n) && pins == Cleared(old(pins), ids[..n])
                                         && (r.PastTheEnd? <==> ids[n] == |pins|)
    {
      ghost var before := pins;
      var n: nat := 0;
      assert Cleared(before, ids[..0]) == before;
      while n < |ids|
        invariant n <= |ids| && Valid() && old(cleared) <= cleared
        invariant Clearable(before, ids[..n]) && pins == Cleared(before, ids[..n])
      {
        r := ClearNext(ids, n, before);
        if !r.Done? {
          return;
        }
        n := n + 1;
      }
      assert ids[..n] == ids;
      ClearedForGood(before, pins, issued, cleared, ids);
      return Done;
    }

    /** ValidateImportedInputID and ValidateImportedOutputID: an id resolves to its own binding until it is cleared. */
    method Validate(id: nat) returns (r: Result<int>)
      requires Valid()
      ensures r.Ok? <==> id < |issued| && id !in cleared
      ensures r.Ok? ==> r.value == issued[id].bindingId
    {
      assert id < |pins| ==> PinOK(pins[id], issued[id], id in cleared);
      if id >= |pins| || pins[id].handle.None? {
        return Err(InvalidArgument);
      }
      return Ok(pins[id].bindingId);
    }
  }

  lemma {:induction false} NextClearable(pins: seq<Pin>, ids: seq<nat>, n: nat)
    requires n < |ids|
    ensures Clearable(pins, ids) ==> Clearable(pins, ids[..n + 1])
    ensures Clearable(pins, ids[..n + 1]) ==> ids[n] < |pins|
  {
    assert ids[..n + 1][n] == ids[n] && ids[n] in ids[..n + 1];
    if Clearable(pins, ids) {
      ClearablePrefix(pins, ids, n + 1);
      assert ids[n] in ids;
    }
  }

  /** What one pre-imported tensor does to a working memory: the cells tied to its binding, the imported handle that goes
      into them for the execution, and the working memory's own handle that belongs there. */
  datatype Swap = Swap(cells: seq<Coord>, imported: Handle, own: Handle)

  /** All cells hold the handles that belong there. */
  ghost predicate AtHome(cells: map<Coord, Handle>, swaps: seq<Swap>) {
    forall n, c :: 0 <= n < |swaps| && c in swaps[n].cells ==> c in cells && cells[c] == swaps[n].own
  }

  /** b differs from a at most in cells that belong to one of the swaps. */
  ghost predicate DifferIn(a: map<Coord, Handle>, b: map<Coord, Handle>, swaps: seq<Swap>) {
    && a.Keys == b.Keys
    && forall c :: c in a && b[c] != a[c] ==> exists n :: 0 <= n < |swaps| && c in swaps[n].cells
  }

  /** The n-th swap's cells hold its imported handle, except where a later swap has put its own. */
  ghost predicate InPlace(cells: map<Coord, Handle>, swaps: seq<Swap>, n: nat)
    requires n < |swaps|
  {
    forall c :: c in swaps[n].cells && (forall m :: n < m < |swaps| ==> c !in swaps[m].cells) ==> c in cells && cells[c] == swaps[n].imported
  }

  ghost predicate AllInPlace(cells: map<Coord, Handle>, swaps: seq<Swap>) {
    forall n :: 0 <= n < |swaps| ==> InPlace(cells, swaps, n)
  }

  /** One handle into every cell of a list. */
  method Fill(cells: map<Coord, Handle>, list: seq<Coord>, h: Handle) returns (cells': map<Coord, Handle>)
    requires forall c :: c in list ==> c in cells
    ensures cells'.Keys == cells.Keys
    ensures forall c :: c in cells ==> cells'[c] == if c in list then h else cells[c]
  {
    cells' := cells;
    var n := 0;
    while n < |list|
      invariant n <= |list| && cells'.Keys == cells.Keys
      invariant forall c :: c in cells ==> cells'[c] == if c in list[..n] then h else cells[c]
    {
      assert list[n] in list;
      assert list[..n + 1] == list[..n] + [list[n]];
      cells' := cells'[list[n] := h];
      n := n + 1;
    }
    assert list[..n] == list;
  }

  /** The loops before the execution: the imported handles go in, in order. */
  method SwapIn(cells: map<Coord, Handle>, swaps: seq<Swap>) returns (cells': map<Coord, Handle>)
    requires AtHome(cells, swaps)
    ensures DifferIn(cells, cells', swaps) && AllInPlace(cells', swaps)
  {
    cells' := cells;
    var n := 0;
    while n < |swaps|
      invariant n <= |swaps| && DifferIn(cells, cells', swaps[..n])
      invariant AllInPlace(cells', swaps[..n])
    {
      ghost var before := cells';
      cells' := Fill(cells', swaps[n].cells, swaps[n].imported);
      SwapInNext(cells, before, cells', swaps, n);
      n := n + 1;
    }
    assert swaps[..n] == swaps;
  }

  lemma {:induction false} SwapInNext(cells: map<Coord, Handle>, a: map<Coord, Handle>, b: map<Coord, Handle>, swaps: seq<Swap>, n: nat)
    requires n < |swaps| && DifferIn(cells, a, swaps[..n]) && AllInPlace(a, swaps[..n])
    requires a.Keys == b.Keys && (forall c :: c in a ==> b[c] == if c in swaps[n].cells then swaps[n].imported else a[c])
    requires forall c :: c in swaps[n].cells ==> c in a
    ensures DifferIn(cells, b, swaps[..n + 1]) && AllInPlace(b, swaps[..n + 1])
  {
    var s, t := swaps[..n], swaps[..n + 1];
    assert t == s + [swaps[n]];
    forall c | c in cells && b[c] != cells[c]
      ensures exists k :: 0 <= k < |t| && c in t[k].cells
    {
      if c in swaps[n].cells {
        assert c in t[n].cells;
      } else {
        var k :| 0 <= k < |s| && c in s[k].cells;
        assert c in t[k].cells;
      }
    }
    forall k | 0 <= k < |t|
      ensures InPlace(b, t, k)
    {
      if k < n {
        assert InPlace(a, s, k);
        forall c | c in t[k].cells && (forall m :: k < m < |t| ==> c !in t[m].cells)
          ensures c in b && b[c] == t[k].imported
        {
          assert forall m :: k < m < |s| ==> s[m] == t[m];
          assert c !in t[n].cells;
        }
      }
    }
  }

  /** Resetting: every swap's own handle goes back into its cells. */
  method Reset(cells: map<Coord, Handle>, swaps: seq<Swap>, ghost home: map<Coord, Handle>) returns (cells': map<Coord, Handle>)
    requires AtHome(home, swaps) && DifferIn(home, cells, swaps)
    ensures cells' == home
  {
    cells' := cells;
    var n := 0;
    while n < |swaps|
      invariant n <= |swaps| && DifferIn(home, cells', swaps[n..])
    {
      ghost var before := cells';
      cells' := Fill(cells', swaps[n].cells, swaps[n].own);
      ResetNext(home, before, cells', swaps, n);
      n := n + 1;
    }
  }

  lemma {:induction false} ResetNext(home: map<Coord, Handle>, a: map<Coord, Handle>, b: map<Coord, Handle>, swaps: seq<Swap>, n: nat)
    requires n < |swaps| && AtHome(home, swaps) && DifferIn(home, a, swaps[n..])
    requires a.Keys == b.Keys && (forall c :: c in a ==> b[c] == if c in swaps[n].cells then swaps[n].own else a[c])
    ensures DifferIn(home, b, swaps[n + 1..])
  {
    var s, t := swaps[n..], swaps[n + 1..];
    forall c | c in home && b[c] != home[c]
      ensures exists k :: 0 <= k < |t| && c in t[k].cells
    {
      assert c !in swaps[n].cells;
      var k :| 0 <= k < |s| && c in s[k].cells;
      assert s[0] == swaps[n] && s[k] == t[k - 1];
    }
  }

  /** How the workload loop ends: normally, with a runtime error, or with some other exception. */
  datatype Outcome = Completed | RuntimeError | OtherException

  /** All ids can be used. */
  ghost predicate Usable(imports: Imports, ids: seq<nat>)
    reads imports
  {
    forall id :: id in ids ==> id < |imports.issued| && id !in imports.cleared
  }

  /** The swaps that belong to a list of ids. */
  ghost predicate SwapsFor(swaps: seq<Swap>, imports: Imports, ids: seq<nat>, tables: Tables)
    reads imports
  {
    |swaps| == |ids| && forall n :: 0 <= n < |ids| ==> SwapFor(swaps[n], imports, ids[n], tables)
  }

  /** The places of the tensor's binding, the tensor's handle, and the binding's own. */
  ghost predicate SwapFor(swap: Swap, imports: Imports, id: nat, tables: Tables)
    reads imports
  {
    && id < |imports.issued| && imports.issued[id].bindingId in tables.connections && imports.issued[id].bindingId in tables.handles
    && swap.cells == tables.connections[imports.issued[id].bindingId] && swap.imported == imports.issued[id].handle
    && swap.own == tables.handles[imports.issued[id].bindingId]
  }

  /** The ids that can be used are for bindings with places and a handle. */
  ghost predicate TabledIds(imports: Imports, ids: seq<nat>, tables: Tables)
    reads imports
  {
    forall id :: id in ids && id < |imports.issued| ==>
      imports.issued[id].bindingId in tables.connections && imports.issued[id].bindingId in tables.handles
  }

  /** The swaps for a list of ids; fails if one is unknown or has been cleared. */
  method CollectSwaps(imports: Imports, ids: seq<nat>, tables: Tables) returns (r: Result<seq<Swap>>)
    requires imports.Valid() && TabledIds(imports, ids, tables)
    ensures r.Ok? <==> Usable(imports, ids)
    ensures r.Ok? ==> SwapsFor(r.value, imports, ids, tables)
  {
    var swaps: seq<Swap> := [];
    var n := 0;
    while n < |ids|
      invariant n <= |ids| && Usable(imports, ids[..n]) && SwapsFor(swaps, imports, ids[..n], tables)
    {
      assert ids[n] in ids && ids[..n + 1] == ids[..n] + [ids[n]];
      var b := imports.Validate(ids[n]);
      if b.Err? {
        return Err(InvalidArgument);
      }
      assert PinOK(imports.pins[ids[n]], imports.issued[ids[n]], false);
      swaps := swaps + [Swap(tables.connections[b.value], imports.pins[ids[n]].handle.value, tables.handles[b.value])];
      n := n + 1;
    }
    assert ids[..n] == ids;
    return Ok(swaps);
  }

  /** The handle cells of the workloads of one asynchronous execution, and which of them each binding is tied to. */
  class WorkingMemory {
    const inputs: Tables
    const outputs: Tables
    const outputCells: map<Coord, Handle>
    var cells: map<Coord, Handle>

    /** The cells tied to a binding hold the binding's own handle. */
    ghost predicate Valid()
      reads this
    {
      inputs.Tied(cells) && outputs.Tied(cells)
    }

    /** WorkingMemHandle for a graph and the handles of its output slots, provided that something is found for every Output.
        The tables list, for every Input, all places where its handle is read and, for every Output, the recorded places of
        the slot it reads and the handle found for it. The cells of all bindings hold the binding's own handle if and only
        if every Output that is alone on its slot reads a layer with a descriptor. */
    constructor (g: Net, handles: map<OutSlot, Handle>)
      requires Walkable(g, handles) && HandlesDiffer(handles) && ReadInputs.InputsRead(g) && OutputsFindable(g)
      requires LoadedNetwork.BindingsDiffer(g, 0) && LoadedNetwork.BindingsDiffer(g, 2)
      ensures CellsOK(g, handles, cells, |g.layers|, 0) && OutputsOK(g, handles, outputCells, |g.layers|, 0)
      ensures InputsTabled(g, handles, inputs, |g.layers|) && AllTabled(g, Collected(map[], cells, outputCells), outputs)
      ensures Valid() <==> forall l :: IsAlone(g, l) ==> AloneFed(g, l)
    {
      var a := Connections.Collect(g, handles);
      var ins := TableInputs(g, handles, a.infos, a.inputs);
      var ok, outs := TableOutputs(g, a);
      FindableExactly(g, handles, a);
      TiedExactly(g, handles, a, outs);
      inputs, outputs, cells, outputCells := ins, outs, a.inputs, a.outputs;
    }

    /** The given ids are for bindings this working memory has places for. */
    ghost predicate Knows(imports: Imports, ids: seq<nat>, tables: Tables)
      reads imports
    {
      imports.Valid() && TabledIds(imports, ids, tables)
    }

    /** The swapping part of the asynchronous LoadedNetwork::Execute. However the workload loop ends, every cell holds
        afterwards what it held before; inside the loop the cells hold the imported handles. */
    method Execute(inputImports: Imports, outputImports: Imports, inputIds: seq<nat>, outputIds: seq<nat>, outcome: Outcome)
      returns (r: Result<bool>, ghost inside: map<Coord, Handle>, ghost swaps: seq<Swap>)
      requires Valid() && Knows(inputImports, inputIds, inputs) && Knows(outputImports, outputIds, outputs)
      modifies this`cells
      ensures Valid() && cells == old(cells)
      ensures r.Err? <==> !Usable(inputImports, inputIds) || !Usable(outputImports, outputIds) || outcome == OtherException
      ensures r.Ok? ==> r.value == (outcome == Completed)
      ensures Usable(inputImports, inputIds) && Usable(outputImports, outputIds) ==>
        && |swaps| == |inputIds| + |outputIds| && AllInPlace(inside, swaps) && DifferIn(old(cells), inside, swaps)
        && SwapsFor(swaps[..|inputIds|], inputImports, inputIds, inputs)
        && SwapsFor(swaps[|inputIds|..], outputImports, outputIds, outputs)
    {
      inside, swaps := cells, [];
      var ins := CollectSwaps(inputImports, inputIds, inputs);
      if ins.Err? {
        return Err(InvalidArgument), inside, swaps;
      }
      var outs := CollectSwaps(outputImports, outputIds, outputs);
      if outs.Err? {
        return Err(InvalidArgument), inside, swaps;
      }
      swaps := ins.value + outs.value;
      assert swaps[..|inputIds|] == ins.value && swaps[|inputIds|..] == outs.value;
      CollectedAtHome(inputImports, outputImports, inputIds, outputIds, ins.value, outs.value);
      var thrown;
      thrown, inside := RunSwapped(ins.value + outs.value, outcome);
      r := if thrown then Err(InvalidArgument) else Ok(outcome == Completed);
    }

    /** The execution between swapping in and resetting. The handlers of the workload loop reset too. */
    method RunSwapped(swaps: seq<Swap>, outcome: Outcome) returns (thrown: bool, ghost inside: map<Coord, Handle>)
      requires AtHome(cells, swaps)
      modifies this`cells
      ensures cells == old(cells) && thrown == (outcome == OtherException)
      ensures AllInPlace(inside, swaps) && DifferIn(cells, inside, swaps)
    {
      cells := SwapIn(cells, swaps);
      inside := cells;
      if outcome != Completed {
        cells := Reset(cells, swaps, old(cells));
      }
      thrown := outcome == OtherException;
      if !thrown {
        HomeIsReset(old(cells), swaps);
        cells := Reset(cells, swaps, old(cells));
      }
    }

    lemma CollectedAtHome(inputImports: Imports, outputImports: Imports, inputIds: seq<nat>, outputIds: seq<nat>, ins: seq<Swap>, outs: seq<Swap>)
      requires Valid() && Knows(inputImports, inputIds, inputs) && Knows(outputImports, outputIds, outputs)
      requires SwapsFor(ins, inputImports, inputIds, inputs)
      requires SwapsFor(outs, outputImports, outputIds, outputs)
      ensures AtHome(cells, ins + outs)
    {
      forall n, c | 0 <= n < |ins + outs| && c in (ins + outs)[n].cells
        ensures c in cells && cells[c] == (ins + outs)[n].own
      {
        if n < |ins| {
          assert (ins + outs)[n] == ins[n] && SwapFor(ins[n], inputImports, inputIds[n], inputs);
        } else {
          var m := n - |ins|;
          assert (ins + outs)[n] == outs[m] && SwapFor(outs[m], outputImports, outputIds[m], outputs);
        }
      }
    }
  }

  /** Resetting what is already reset changes nothing. */
  lemma {:induction false} HomeIsReset(home: map<Coord, Handle>, swaps: seq<Swap>)
    ensures DifferIn(home, home, swaps)
  {
  }

  /** The tables list places among the inputs of descriptors only, so that no workload ever writes to an imported handle. */
  lemma {:induction false} NoImportWritten(g: Net, handles: map<OutSlot, Handle>, outputCells: map<Coord, Handle>)
    requires OutputsOK(g, handles, outputCells, |g.layers|, 0) && forall o :: o in handles ==> handles[o].Own?
    ensures forall x :: x in outputCells ==> outputCells[x].Own?
  {
    forall x | x in outputCells
      ensures outputCells[x].Own?
    {
      assert ComesFrom(g, handles, outputCells[x], x);
    }
  }

  /** While a tensor is imported for an Output that is alone on its slot, every other reader of the slot reads the imported
      tensor too, unless an import for another binding has taken its place. */
  lemma {:induction false} ImportReadInstead(g: Net, a: Collected, t: Tables, inside: map<Coord, Handle>, swaps: seq<Swap>, n: nat, l: LayerId,
                                             i: InSlot)
    requires g.Valid() && (forall j :: g.IsIn(j) ==> j in g.source) && AllTabled(g, a, t) && IsAlone(g, l) && AloneFed(g, l)
    requires i in g.source && g.source[i] == g.source[InSlot(l, 0)]
    requires n < |swaps| && g.info[l].bindingId in t.connections && swaps[n].cells == t.connections[g.info[l].bindingId]
    requires AllInPlace(inside, swaps) && forall m :: n < m < |swaps| ==> CoordOf(g, i) !in swaps[m].cells
    ensures CoordOf(g, i) in inside && inside[CoordOf(g, i)] == swaps[n].imported
  {
    var o := g.source[i];
    var s := ReadersOf(g, o, |g.layers|, 0);
    assert OutputTabled(g, a, t, l);
    AllReaders(g, o, i);
    assert CoordsOf(g, s)[IndexOf(s, i)] == CoordOf(g, i);
    assert InPlace(inside, swaps, n);
  }
}
