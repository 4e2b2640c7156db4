/**
  What a working memory of an asynchronous network is made of: the descriptors, the tables by which inputs and outputs are
  found, and the memories, of which the k-th goes to the k-th managed handle.
 */
module Loading {
  import opened Sequences
  import opened NetGraph
  import opened Evaluation
  import opened MemoryProfile
  import opened SharedMemory
  import opened WorkingMemHandle
  import opened TensorMemory
  import opened Connections
  import opened BindingTables
  import LoadedNetwork
  import ReadInputs

  /** One handle for every output slot. */
  ghost function OwnHandles(g: Net): (m: map<OutSlot, Handle>)
    ensures forall o :: o in m <==> g.IsOut(o)
    ensures forall o :: o in m ==> m[o] == Own(o)
  {
    map o | o in OutSlots(g) :: Own(o)
  }

  /** What a working memory consists of, and the queue of the network. */
  datatype Working = Working(queue: seq<LayerId>, a: Collected, inputs: Tables, outputs: Tables, y: Layout)

  /** What a network must be like: without MemImport layers workloads and descriptors have the same indices, every Input is
      read, every Output reads a layer with a descriptor, and blocks and managed handles go by the same rule. */
  ghost predicate Loadable(g: Net, opts: Options) {
    && Walkable(g, OwnHandles(g)) && ReadInputs.InputsRead(g) && OutputsFed(g) && RulesMatch(g, opts)
    && LoadedNetwork.BindingsDiffer(g, 0) && LoadedNetwork.BindingsDiffer(g, 2)
  }

  ghost predicate Loaded(g: Net, opts: Options, bytes: map<OutSlot, nat>, w: Working) {
    && w.queue == QueueOf(g, g.layers) && CollectedOK(g, OwnHandles(g), w.a, |g.layers|)
    && InputsTabled(g, OwnHandles(g), w.inputs, |g.layers|) && AllTabled(g, w.a, w.outputs)
    && Places(g, opts, bytes, w.y)
  }

  /** WorkingMemHandle::Allocate: the k-th managed handle gets the k-th memory. */
  method Allocate(managed: seq<OutSlot>, memories: seq<nat>, place: map<nat, nat>, bytes: map<OutSlot, nat>, size: nat) returns (y: Layout)
    requires |memories| <= |managed| && forall k :: 0 <= k < |memories| ==> memories[k] in place
    ensures y.bytes == bytes && y.size == size
    ensures forall o :: o in y.at ==> exists k :: Given(managed, memories, k, o) && y.at[o] == place[memories[k]]
    ensures forall k :: 0 <= k < |memories| ==> managed[k] in y.at
  {
    var at: map<OutSlot, nat> := map[];
    var k := 0;
    while k < |memories|
      invariant k <= |memories|
      invariant forall o :: o in at ==> exists j :: Given(managed, memories, j, o) && at[o] == place[memories[j]]
      invariant forall j :: 0 <= j < k ==> managed[j] in at
    {
      assert Given(managed, memories, k, managed[k]);
      at := at[managed[k] := place[memories[k]]];
      k := k + 1;
    }
    y := Layout(bytes, at, size);
  }

  /** The handle of o is the k-th. */
  ghost predicate Given(managed: seq<OutSlot>, memories: seq<nat>, k: int, o: OutSlot) {
    0 <= k < |memories| && k < |managed| && managed[k] == o
  }

  /** If memories and managed handles are listed in the same order of slots, the layout is the one of the blocks. */
  lemma {:induction false} AllocatedPlaces(g: Net, opts: Options, bytes: map<OutSlot, nat>, blocks: seq<Block>, numbered: seq<OutSlot>,
                                           memories: seq<nat>, managed: seq<OutSlot>, place: map<nat, nat>, y: Layout)
    requires g.Valid() && OneBlockEach(g, opts, bytes, blocks, numbered) && numbered == ManagedUpTo(g, opts, |g.layers|)
    requires SortedBlocks(blocks, memories) && managed == ManagedHandlesUpTo(g, opts, |g.layers|) && RulesMatch(g, opts)
    requires BlocksApart(blocks, place, y.size) && (forall o :: g.IsOut(o) ==> o in bytes) && y.bytes == bytes
    requires |memories| <= |managed| && forall k :: 0 <= k < |memories| ==> memories[k] in place
    requires forall o :: o in y.at ==> exists k :: Given(managed, memories, k, o) && y.at[o] == place[memories[k]]
    requires forall k :: 0 <= k < |memories| ==> managed[k] in y.at
    ensures Places(g, opts, bytes, y)
  {
    SameSlotsExactly(g, opts, bytes, blocks, numbered, memories, managed);
    MemoriesNumbered(g, opts, bytes, blocks, numbered, memories);
    forall o | o in y.at
      ensures Shared(g, opts, o) && IndexOf(numbered, o) in place && y.at[o] == place[IndexOf(numbered, o)]
    {
      var k :| Given(managed, memories, k, o) && y.at[o] == place[memories[k]];
      NumberOfHandle(numbered, memories, managed, k);
    }
    forall o | Shared(g, opts, o)
      ensures o in y.at
    {
      var k := HandleOfBlock(g, opts, bytes, blocks, numbered, memories, managed, o);
    }
    BlocksGiveLayout(g, opts, bytes, blocks, numbered, place, y);
  }

  lemma {:induction false} NumberOfHandle(numbered: seq<OutSlot>, memories: seq<nat>, managed: seq<OutSlot>, k: nat)
    requires NoDup(numbered) && SlotsAt(numbered, memories) == managed && k < |memories| && memories[k] < |numbered|
    ensures managed[k] == numbered[memories[k]] && IndexOf(numbered, managed[k]) == memories[k]
  {
    IndexOfUnique(numbered, memories[k]);
  }

  lemma {:induction false} HandleOfBlock(g: Net, opts: Options, bytes: map<OutSlot, nat>, blocks: seq<Block>, numbered: seq<OutSlot>,
                                         memories: seq<nat>, managed: seq<OutSlot>, o: OutSlot) returns (k: nat)
    requires OneBlockEach(g, opts, bytes, blocks, numbered) && SortedBlocks(blocks, memories) && SlotsAt(numbered, memories) == managed
    requires Shared(g, opts, o)
    ensures k < |memories| && managed[k] == o
  {
    var n := IndexOf(numbered, o);
    assert o in numbered && numbered[n] == o;
    MemoryOfBlock(g, opts, bytes, blocks, numbered, memories, n);
    k := IndexOf(memories, n);
  }

  /** Every memory is for a numbered slot that has a block. */
  lemma {:induction false} MemoriesNumbered(g: Net, opts: Options, bytes: map<OutSlot, nat>, blocks: seq<Block>, numbered: seq<OutSlot>,
                                            memories: seq<nat>)
    requires OneBlockEach(g, opts, bytes, blocks, numbered) && SortedBlocks(blocks, memories)
    ensures forall k :: 0 <= k < |memories| ==> memories[k] < |numbered| && Shared(g, opts, numbered[memories[k]])
  {
    MemoriesSelected(g, opts, bytes, blocks, numbered, memories);
    forall k | 0 <= k < |memories|
      ensures memories[k] < |numbered| && Shared(g, opts, numbered[memories[k]])
    {
      KeptCount(numbered, NoBlock(g, opts), memories[k]);
      assert memories[k] in memories && Count(memories, memories[k]) > 0;
      assert numbered[memories[k]] in numbered;
    }
  }

  lemma {:induction false} MemoryOfBlock(g: Net, opts: Options, bytes: map<OutSlot, nat>, blocks: seq<Block>, numbered: seq<OutSlot>,
                                         memories: seq<nat>, n: nat)
    requires OneBlockEach(g, opts, bytes, blocks, numbered) && SortedBlocks(blocks, memories)
    requires n < |numbered| && Shared(g, opts, numbered[n])
    ensures n in memories
  {
    MemoriesSelected(g, opts, bytes, blocks, numbered, memories);
    KeptCount(numbered, NoBlock(g, opts), n);
    assert Count(memories, n) > 0;
  }

  /** What a network needs from the placement of its blocks. */
  ghost predicate Placed(g: Net, opts: Options, bytes: map<OutSlot, nat>, blocks: seq<Block>, memories: seq<nat>, place: map<nat, nat>, size: nat) {
    && OneBlockEach(g, opts, bytes, blocks, ManagedUpTo(g, opts, |g.layers|)) && SortedBlocks(blocks, memories)
    && BlocksApart(blocks, place, size) && (forall o :: g.IsOut(o) ==> o in bytes)
  }

  /** There is a handle for every memory, and every memory has its place. */
  lemma {:induction false} HandlesSuffice(g: Net, opts: Options, bytes: map<OutSlot, nat>, blocks: seq<Block>, memories: seq<nat>,
                                          managed: seq<OutSlot>, place: map<nat, nat>, size: nat)
    requires g.Valid() && Placed(g, opts, bytes, blocks, memories, place, size) && managed == ManagedHandlesUpTo(g, opts, |g.layers|)
    requires RulesMatch(g, opts)
    ensures |memories| == |managed| && forall k :: 0 <= k < |memories| ==> memories[k] in place
  {
    var numbered := ManagedUpTo(g, opts, |g.layers|);
    SameSlotsExactly(g, opts, bytes, blocks, numbered, memories, managed);
    MemoriesNumbered(g, opts, bytes, blocks, numbered, memories);
    forall k | 0 <= k < |memories|
      ensures memories[k] in place
    {
      var n := memories[k];
      assert BlockAt(g, opts, bytes, blocks, numbered, n);
      WithMember(blocks, n, BlockOf(g, opts, bytes, numbered[n], n));
    }
  }

  /** The queue, and a working memory that has been allocated. */
  method Load(g: Net, opts: Options, bytes: map<OutSlot, nat>, ghost blocks: seq<Block>, memories: seq<nat>, place: map<nat, nat>, size: nat,
              handles: map<OutSlot, Handle>)
    returns (w: Working)
    requires Loadable(g, opts) && handles == OwnHandles(g) && Placed(g, opts, bytes, blocks, memories, place, size)
    ensures Loaded(g, opts, bytes, w) && w.y.size == size
  {
    var queue := WorkingMemHandle.BuildQueue(g);
    var managed, data := CreateWorkingMemHandle(g, opts);
    var a := Collect(g, handles);
    var inputs := TableInputs(g, handles, a.infos, a.inputs);
    var ok, outputs := TableOutputs(g, a);
    OwnDiffer(g);
    OutputsRightExactly(g, handles, a, ok, outputs);
    HandlesSuffice(g, opts, bytes, blocks, memories, managed, place, size);
    var y := Allocate(managed, memories, place, bytes, size);
    AllocatedPlaces(g, opts, bytes, blocks, ManagedUpTo(g, opts, |g.layers|), memories, managed, place, y);
    w := Working(queue, a, inputs, outputs, y);
  }

  lemma {:induction false} OwnDiffer(g: Net)
    ensures HandlesDiffer(OwnHandles(g))
  {
  }
}
