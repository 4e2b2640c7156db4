/**
  Which memory goes to which tensor handle. The memories of the blocks are sorted by slot id, and the k-th memory is
  imported into the k-th managed handle; the two lists are made by different rules.
 */
module TensorMemory {
  import opened Sequences
  import opened NetGraph
  import opened Evaluation
  import opened MemoryProfile
  import opened WorkingMemHandle

  /** The slot ids in the list of tensor memories. */
  ghost function Indices(blocks: seq<Block>): (r: seq<nat>)
    ensures |r| == |blocks|
    ensures forall k {:trigger r[k]} :: 0 <= k < |r| ==> r[k] == blocks[k].index
  {
    seq(|blocks|, k requires 0 <= k < |blocks| => blocks[k].index)
  }

  lemma {:induction false} IndexCount(blocks: seq<Block>, n: nat)
    ensures multiset(Indices(blocks))[n] == |With(blocks, n)|
  {
    if blocks != [] {
      var t := blocks[..|blocks| - 1];
      IndexCount(t, n);
      assert Indices(blocks) == Indices(t) + [blocks[|blocks| - 1].index];
    }
  }

  /** The positions in s of what is not left out. */
  ghost function Kept(s: seq<OutSlot>, gone: set<OutSlot>): seq<nat> {
    if s == [] then []
    else Kept(s[..|s| - 1], gone) + if s[|s| - 1] in gone then [] else [|s| - 1]
  }

  lemma {:induction false} KeptAscends(s: seq<OutSlot>, gone: set<OutSlot>)
    ensures NonDecreasing(Kept(s, gone)) && forall k :: 0 <= k < |Kept(s, gone)| ==> Kept(s, gone)[k] < |s|
  {
    if s != [] {
      KeptAscends(s[..|s| - 1], gone);
    }
  }

  lemma {:induction false} KeptCount(s: seq<OutSlot>, gone: set<OutSlot>, n: nat)
    ensures multiset(Kept(s, gone))[n] == if n < |s| && s[n] !in gone then 1 else 0
  {
    if s != [] {
      KeptCount(s[..|s| - 1], gone, n);
    }
  }

  /** The slots with the given numbers. */
  ghost function SlotsAt(s: seq<OutSlot>, numbers: seq<nat>): (r: seq<OutSlot>)
    ensures |r| == |numbers|
    ensures forall k {:trigger r[k]} :: 0 <= k < |r| ==> r[k] == if numbers[k] < |s| then s[numbers[k]] else OutSlot(0, 0)
  {
    seq(|numbers|, k requires 0 <= k < |numbers| => if numbers[k] < |s| then s[numbers[k]] else OutSlot(0, 0))
  }

  lemma {:induction false} KeptSlots(s: seq<OutSlot>, gone: set<OutSlot>)
    ensures SlotsAt(s, Kept(s, gone)) == Without(s, gone)
  {
    if s != [] {
      var t := s[..|s| - 1];
      KeptSlots(t, gone);
      KeptAscends(t, gone);
      assert SlotsAt(s, Kept(t, gone)) == SlotsAt(t, Kept(t, gone));
      assert SlotsAt(s, Kept(s, gone)) == SlotsAt(s, Kept(t, gone)) + if s[|s| - 1] in gone then [] else [s[|s| - 1]];
    }
  }

  ghost function SlotsOfLayer(g: Net, l: LayerId): seq<OutSlot> {
    if l in g.info && !g.info[l].kind.Constant? then SlotsOf(l, g.info[l].numOut) else []
  }

  /** The output slots of the first k layers, Constants aside. */
  ghost function SlotsUpTo(g: Net, k: nat): seq<OutSlot> {
    if k == 0 || k > |g.layers| then [] else SlotsUpTo(g, k - 1) + SlotsOfLayer(g, g.layers[k - 1])
  }

  ghost function NoHandle(g: Net, opts: Options): set<OutSlot> {
    set o | o in OutSlots(g) && !HandleManaged(g, opts, o)
  }

  ghost function NotNumbered(g: Net, opts: Options): set<OutSlot> {
    set o | o in OutSlots(g) && !Managed(g, opts, o)
  }

  ghost function NoBlock(g: Net, opts: Options): set<OutSlot> {
    set o | o in OutSlots(g) && Exported(g, opts, o)
  }

  lemma {:induction false} SlotsSelected(g: Net, opts: Options, l: LayerId, j: nat)
    requires l in g.info && j <= g.info[l].numOut
    ensures ManagedSlots(g, opts, l, j) == Without(SlotsOf(l, j), NoHandle(g, opts))
  {
    if j > 0 {
      SlotsSelected(g, opts, l, j - 1);
      assert g.IsOut(OutSlot(l, j - 1));
      assert SlotsOf(l, j)[..j - 1] == SlotsOf(l, j - 1);
    }
  }

  lemma {:induction false} LayerSelected(g: Net, opts: Options, l: LayerId)
    ensures ManagedOfLayer(g, opts, l) == Without(SlotsOfLayer(g, l), NoHandle(g, opts))
  {
    if l in g.info {
      SlotsSelected(g, opts, l, g.info[l].numOut);
    }
  }

  lemma {:induction false} HandlesStep(g: Net, opts: Options, l: LayerId, m: seq<OutSlot>, s: seq<OutSlot>)
    requires m == Without(s, NoHandle(g, opts))
    ensures m + ManagedOfLayer(g, opts, l) == Without(s + SlotsOfLayer(g, l), NoHandle(g, opts))
  {
    LayerSelected(g, opts, l);
    WithoutConcat(s, SlotsOfLayer(g, l), NoHandle(g, opts));
  }

  lemma {:induction false} HandlesSelected(g: Net, opts: Options, k: nat)
    requires k <= |g.layers|
    ensures ManagedHandlesUpTo(g, opts, k) == Without(SlotsUpTo(g, k), NoHandle(g, opts))
  {
    if k > 0 {
      HandlesSelected(g, opts, k - 1);
      HandlesStep(g, opts, g.layers[k - 1], ManagedHandlesUpTo(g, opts, k - 1), SlotsUpTo(g, k - 1));
    }
  }

  lemma {:induction false} NumberedSlots(g: Net, opts: Options, l: LayerId)
    requires l in g.info && !g.info[l].kind.Constant?
    ensures Without(SlotsOf(l, g.info[l].numOut), NotNumbered(g, opts)) ==
      if g.info[l].kind.Input? && opts.importInputs then [] else SlotsOf(l, g.info[l].numOut)
  {
    var s := SlotsOf(l, g.info[l].numOut);
    WithoutMembers(s, NotNumbered(g, opts));
    forall o | o in s
      ensures o.layer == l && g.IsOut(o)
    {
      assert s[IndexOf(s, o)] == o;
    }
    if g.info[l].kind.Input? && opts.importInputs {
      assert forall o :: o !in Without(s, NotNumbered(g, opts));
      if Without(s, NotNumbered(g, opts)) != [] {
        HasMember(Without(s, NotNumbered(g, opts)));
      }
    } else {
      WithoutSame(s, NotNumbered(g, opts), {});
      WithoutNothing(s);
    }
  }

  ghost function NumberedOfLayer(g: Net, opts: Options, l: LayerId): seq<OutSlot> {
    if l in g.info && !Skipped(g, opts, l) then SlotsOf(l, g.info[l].numOut) else []
  }

  lemma {:induction false} NumberedLayer(g: Net, opts: Options, l: LayerId)
    requires l in g.info && g.info[l].WellShaped()
    ensures Without(SlotsOfLayer(g, l), NotNumbered(g, opts)) == NumberedOfLayer(g, opts, l)
  {
    if !g.info[l].kind.Constant? {
      NumberedSlots(g, opts, l);
      assert g.info[l].kind.Output? ==> SlotsOf(l, 0) == [];
    }
  }

  lemma {:induction false} NumberedUnfold(g: Net, opts: Options, k: nat)
    requires 0 < k <= |g.layers|
    ensures ManagedUpTo(g, opts, k) == ManagedUpTo(g, opts, k - 1) + NumberedOfLayer(g, opts, g.layers[k - 1])
    ensures SlotsUpTo(g, k) == SlotsUpTo(g, k - 1) + SlotsOfLayer(g, g.layers[k - 1])
  {
  }

  ghost predicate KnownLayers(g: Net) {
    forall k :: 0 <= k < |g.layers| ==> g.layers[k] in g.info && g.info[g.layers[k]].WellShaped()
  }

  lemma {:induction false} ListedAreKnown(g: Net)
    requires g.Listed()
    ensures KnownLayers(g)
  {
    forall k | 0 <= k < |g.layers|
      ensures g.layers[k] in g.info && g.info[g.layers[k]].WellShaped()
    {
      assert g.layers[k] in g.layers;
    }
  }

  lemma {:induction false} NumberedStep(g: Net, opts: Options, l: LayerId, m: seq<OutSlot>, s: seq<OutSlot>)
    requires l in g.info && g.info[l].WellShaped() && m == Without(s, NotNumbered(g, opts))
    ensures m + NumberedOfLayer(g, opts, l) == Without(s + SlotsOfLayer(g, l), NotNumbered(g, opts))
  {
    NumberedLayer(g, opts, l);
    WithoutConcat(s, SlotsOfLayer(g, l), NotNumbered(g, opts));
  }

  lemma {:induction false} NumberedSelected(g: Net, opts: Options, k: nat)
    requires KnownLayers(g) && k <= |g.layers|
    ensures ManagedUpTo(g, opts, k) == Without(SlotsUpTo(g, k), NotNumbered(g, opts))
  {
    if k > 0 {
      NumberedSelected(g, opts, k - 1);
      NumberedStep(g, opts, g.layers[k - 1], ManagedUpTo(g, opts, k - 1), SlotsUpTo(g, k - 1));
      NumberedUnfold(g, opts, k);
    }
  }

  lemma {:induction false} SlotsOfLayerMembers(g: Net, l: LayerId, o: OutSlot)
    requires l in g.info
    ensures o in SlotsOfLayer(g, l) <==> g.IsOut(o) && !g.info[l].kind.Constant? && o.layer == l
  {
    assert o.layer == l && o.index < g.info[l].numOut ==> SlotsOf(l, g.info[l].numOut)[o.index] == o;
  }

  lemma {:induction false} ConcatMembers(s: seq<OutSlot>, t: seq<OutSlot>, o: OutSlot)
    ensures o in s + t <==> o in s || o in t
  {
  }

  lemma {:induction false} SlotsUpToMembers(g: Net, k: nat, o: OutSlot)
    requires KnownLayers(g) && k <= |g.layers|
    ensures o in SlotsUpTo(g, k) <==> g.IsOut(o) && !g.info[o.layer].kind.Constant? && exists j :: 0 <= j < k && g.layers[j] == o.layer
  {
    if k > 0 {
      SlotsUpToMembers(g, k - 1, o);
      SlotsOfLayerMembers(g, g.layers[k - 1], o);
      ConcatMembers(SlotsUpTo(g, k - 1), SlotsOfLayer(g, g.layers[k - 1]), o);
    }
  }

  /** The list of tensor memories: one for every block, sorted by slot id. */
  ghost predicate SortedBlocks(blocks: seq<Block>, memories: seq<nat>) {
    NonDecreasing(memories) && multiset(memories) == multiset(Indices(blocks))
  }

  /** The slots of the memories are the numbered ones without those that have no block. */
  lemma {:induction false} MemoriesSelected(g: Net, opts: Options, bytes: map<OutSlot, nat>, blocks: seq<Block>, numbered: seq<OutSlot>,
                                            memories: seq<nat>)
    requires OneBlockEach(g, opts, bytes, blocks, numbered) && SortedBlocks(blocks, memories)
    ensures memories == Kept(numbered, NoBlock(g, opts))
  {
    var kept: seq<nat> := Kept(numbered, NoBlock(g, opts));
    forall n: nat
      ensures Count(memories, n) == Count(kept, n)
    {
      IndexCount(blocks, n);
      KeptCount(numbered, NoBlock(g, opts), n);
      if n < |numbered| {
        assert BlockAt(g, opts, bytes, blocks, numbered, n) && numbered[n] in numbered;
      }
    }
    KeptAscends(numbered, NoBlock(g, opts));
    SortedUnique(memories, kept);
  }

  /** The k-th memory belongs to the slot of the k-th managed handle, for every k, if and only if the rules agree on
      every slot: it has a block exactly if its handle is managed. */
  lemma {:induction false} SameSlotsExactly(g: Net, opts: Options, bytes: map<OutSlot, nat>, blocks: seq<Block>, numbered: seq<OutSlot>,
                                            memories: seq<nat>, managed: seq<OutSlot>)
    requires g.Valid() && OneBlockEach(g, opts, bytes, blocks, numbered) && numbered == ManagedUpTo(g, opts, |g.layers|)
    requires SortedBlocks(blocks, memories) && managed == ManagedHandlesUpTo(g, opts, |g.layers|)
    ensures SlotsAt(numbered, memories) == managed <==> RulesMatch(g, opts)
  {
    var all, a, b, c := SlotsUpTo(g, |g.layers|), NotNumbered(g, opts), NoBlock(g, opts), NoHandle(g, opts);
    MemoriesSelected(g, opts, bytes, blocks, numbered, memories);
    KeptSlots(numbered, b);
    ListedAreKnown(g);
    NumberedSelected(g, opts, |g.layers|);
    WithoutTwice(all, a, b);
    HandlesSelected(g, opts, |g.layers|);
    WithoutEqual(all, a + b, c);
    RulesAgree(g, opts, all);
  }

  /** The rules by which slots get blocks and handles are managed agree on every slot. */
  ghost predicate RulesMatch(g: Net, opts: Options) {
    forall o :: g.IsOut(o) && !g.info[o.layer].kind.Constant? ==> (Shared(g, opts, o) <==> HandleManaged(g, opts, o))
  }

  lemma {:induction false} RulesAgree(g: Net, opts: Options, all: seq<OutSlot>)
    requires g.Valid() && all == SlotsUpTo(g, |g.layers|)
    ensures (forall o :: o in all ==> (o in NotNumbered(g, opts) + NoBlock(g, opts) <==> o in NoHandle(g, opts))) <==> RulesMatch(g, opts)
  {
    ListedAreKnown(g);
    forall o
      ensures o in all <==> g.IsOut(o) && !g.info[o.layer].kind.Constant?
    {
      SlotsUpToMembers(g, |g.layers|, o);
      if o.layer in g.info {
        assert g.layers[IndexOf(g.layers, o.layer)] == o.layer;
      }
    }
  }

  /** Without import and export they agree. */
  lemma {:induction false} SameSlots(g: Net, opts: Options, bytes: map<OutSlot, nat>, blocks: seq<Block>, numbered: seq<OutSlot>,
                                     memories: seq<nat>, managed: seq<OutSlot>)
    requires !opts.importInputs && !opts.exportOutputs
    requires g.Valid() && OneBlockEach(g, opts, bytes, blocks, numbered) && numbered == ManagedUpTo(g, opts, |g.layers|)
    requires SortedBlocks(blocks, memories) && managed == ManagedHandlesUpTo(g, opts, |g.layers|)
    ensures SlotsAt(numbered, memories) == managed
  {
    SameSlotsExactly(g, opts, bytes, blocks, numbered, memories, managed);
  }

  /** The condition on slot o in terms of n, the number of connections to Outputs from the slots of its layer up to o. */
  ghost predicate SlotMatches(g: Net, opts: Options, o: OutSlot)
    requires o.layer in g.info
  {
    var n := |ToOutputs(g, o.layer, o.index + 1)|;
    if opts.importInputs && g.info[o.layer].kind.Input? then n == 0 || (n == 1 && opts.exportOutputs)
    else if n == 0 then !(opts.importInputs && g.info[o.layer].kind.MemImport?)
    else opts.exportOutputs ==> (n == 1 <==> |g.Sinks(o)| == 1 && IsOutput(g, g.Sinks(o)[0]))
  }

  predicate IsOutput(g: Net, i: InSlot) {
    i.layer in g.info && g.info[i.layer].kind.Output?
  }

  /** The condition under which blocks and handles agree, spelled out in options and readers. */
  lemma {:induction false} RulesMatchExactly(g: Net, opts: Options)
    requires g.Linked()
    ensures RulesMatch(g, opts) <==> forall o :: g.IsOut(o) && !g.info[o.layer].kind.Constant? ==> SlotMatches(g, opts, o)
  {
    forall o | g.IsOut(o) && !g.info[o.layer].kind.Constant?
      ensures SlotMatches(g, opts, o) <==> (Shared(g, opts, o) <==> HandleManaged(g, opts, o))
    {
      OutputsUpToIsSize(g, o.layer, o.index + 1);
      if |g.Sinks(o)| == 1 {
        OnlyReader(g, g.Sinks(o));
      }
    }
  }

  lemma {:induction false} OnlyReader(g: Net, s: seq<InSlot>)
    requires |s| == 1
    ensures OutputsAmong(g, s) == if IsOutput(g, s[0]) then 1 else 0
  {
    assert s[..0] == [];
  }

  /** With export they do not agree if an Output and something else read a slot, and no other Output reads it or an earlier slot
      of its layer: the slot has a block, but its handle is left to the user. */
  lemma {:induction false} SharedOutputDisagrees(g: Net, opts: Options, o: OutSlot, i: InSlot)
    requires g.Linked() && opts.exportOutputs && g.IsOut(o) && !g.info[o.layer].kind.Constant?
    requires !(opts.importInputs && g.info[o.layer].kind.Input?)
    requires ToOutputs(g, o.layer, o.index) == {} && |g.Sinks(o)| > 1
    requires i in g.Sinks(o) && forall j :: j in g.Sinks(o) ==> (IsOutput(g, j) <==> j == i)
    ensures Shared(g, opts, o) && !HandleManaged(g, opts, o)
  {
    assert g.SinksOK(o);
    OutputsUpToIsSize(g, o.layer, o.index);
    OneOutput(g, g.Sinks(o), i);
  }

  lemma {:induction false} OneOutput(g: Net, s: seq<InSlot>, i: InSlot)
    requires NoDup(s) && forall j :: j in s ==> (IsOutput(g, j) <==> j == i)
    ensures OutputsAmong(g, s) == if i in s then 1 else 0
  {
    if s != [] {
      var t, x := s[..|s| - 1], s[|s| - 1];
      PrefixNoDup(s);
      OneOutput(g, t, i);
      assert x in s && forall j :: j in s <==> j in t || j == x;
    }
  }
}
