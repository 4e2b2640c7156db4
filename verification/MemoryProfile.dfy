/**
  The lifetimes that decide which tensors may share memory. Every managed output slot yields one block,
  which lasts from the step of its layer to the step of the last layer that reads it.
 */
module MemoryProfile {
  import opened Sequences
  import opened NetGraph
  import opened Edges
  import opened Ordering

  datatype Options = Options(importInputs: bool, exportOutputs: bool)

  /** A layer that takes no step: its memory is not managed here. */
  predicate Skipped(g: Net, opts: Options, l: LayerId) {
    l in g.info &&
    ( || g.info[l].kind.Constant?
      || (g.info[l].kind.Input? && opts.importInputs)
      || (g.info[l].kind.Output? && opts.exportOutputs && InSlot(l, 0) in g.source && |g.Sinks(g.source[InSlot(l, 0)])| == 1))
  }

  /** The number of steps taken by the first k layers. */
  function Step(g: Net, opts: Options, k: nat): nat {
    if k == 0 then 0
    else Step(g, opts, k - 1) + if k <= |g.layers| && !Skipped(g, opts, g.layers[k - 1]) then 1 else 0
  }

  ghost function StepOf(g: Net, opts: Options, l: LayerId): nat {
    Step(g, opts, Pos(g, l))
  }

  lemma {:induction false} StepMonotone(g: Net, opts: Options, j: nat, k: nat)
    requires j <= k
    ensures Step(g, opts, j) <= Step(g, opts, k)
    ensures j < k && j < |g.layers| && !Skipped(g, opts, g.layers[j]) ==> Step(g, opts, j) < Step(g, opts, k)
  {
    if j < k {
      StepMonotone(g, opts, j, k - 1);
    }
  }

  /** The output slots whose memory is managed. */
  predicate Managed(g: Net, opts: Options, o: OutSlot) {
    g.IsOut(o) && !g.info[o.layer].kind.Constant? && !(g.info[o.layer].kind.Input? && opts.importInputs)
  }

  /** With outputs exported, the memory of a slot read by nothing but one Output layer is the user's. */
  predicate Exported(g: Net, opts: Options, o: OutSlot) {
    opts.exportOutputs && |g.Sinks(o)| == 1 && g.Sinks(o)[0].layer in g.info && g.info[g.Sinks(o)[0].layer].kind.Output?
  }

  /** A slot that has a block. */
  predicate Shared(g: Net, opts: Options, o: OutSlot) {
    Managed(g, opts, o) && !Exported(g, opts, o)
  }

  ghost function MaxStep(g: Net, opts: Options, s: seq<InSlot>): nat {
    if s == [] then 0
    else
      var m, t := MaxStep(g, opts, s[..|s| - 1]), StepOf(g, opts, s[|s| - 1].layer);
      if m < t then t else m
  }

  lemma {:induction false} MaxStepIsMax(g: Net, opts: Options, s: seq<InSlot>, i: InSlot)
    requires i in s
    ensures StepOf(g, opts, i.layer) <= MaxStep(g, opts, s)
  {
    if i != s[|s| - 1] {
      assert i in s[..|s| - 1];
      MaxStepIsMax(g, opts, s[..|s| - 1], i);
    }
  }

  lemma {:induction false} MaxStepAtMost(g: Net, opts: Options, s: seq<InSlot>, t: nat)
    requires forall i :: i in s ==> StepOf(g, opts, i.layer) <= t
    ensures MaxStep(g, opts, s) <= t
  {
    if s != [] {
      MaxStepAtMost(g, opts, s[..|s| - 1], t);
    }
  }

  /** The closed interval of steps in which the value of o must not be overwritten. */
  ghost function Start(g: Net, opts: Options, o: OutSlot): nat {
    StepOf(g, opts, o.layer)
  }

  ghost function End(g: Net, opts: Options, o: OutSlot): nat {
    if g.Sinks(o) == [] then Start(g, opts, o) else MaxStep(g, opts, g.Sinks(o))
  }

  function Align(n: nat): (r: nat)
    ensures n <= r < n + 4 && r % 4 == 0
  {
    (n + 3) / 4 * 4
  }

  datatype Block = Block(backend: string, start: nat, end: nat, size: nat, index: nat)

  /** A block that is still in use; its end is not known yet. */
  datatype PartialBlock = PartialBlock(start: nat, lifetime: nat, size: nat, index: nat, backend: string)

  datatype Profile = Profile(blocks: seq<Block>, tracker: map<OutSlot, PartialBlock>, outputIndex: nat)

  /** The n-th managed slot's block. */
  ghost function BlockOf(g: Net, opts: Options, bytes: map<OutSlot, nat>, o: OutSlot, n: nat): Block
    requires o in bytes && o.layer in g.info
  {
    Block(g.info[o.layer].backend, Start(g, opts, o), End(g, opts, o), Align(bytes[o]), n)
  }

  /** The blocks with index n. */
  ghost function With(blocks: seq<Block>, n: nat): seq<Block> {
    if blocks == [] then []
    else
      var b, rest := blocks[|blocks| - 1], blocks[..|blocks| - 1];
      if b.index == n then With(rest, n) + [b] else With(rest, n)
  }

  lemma {:induction false} WithNext(blocks: seq<Block>, b: Block, n: nat)
    ensures With(blocks + [b], n) == With(blocks, n) + if b.index == n then [b] else []
  {
    assert (blocks + [b])[..|blocks|] == blocks;
  }

  /** The readers of o that have not been visited. */
  ghost function Waiting(g: Net, ins: set<InSlot>, o: OutSlot): set<InSlot> {
    set i | i in g.source && g.source[i] == o && i !in ins
  }

  /** The slots that have been given an index, in that order. */
  ghost predicate NumberedOK(g: Net, opts: Options, bytes: map<OutSlot, nat>, p: Profile, numbered: seq<OutSlot>) {
    && |numbered| == p.outputIndex && NoDup(numbered)
    && (forall o :: o in numbered ==> Managed(g, opts, o) && o in bytes)
    && (forall o :: o in p.tracker ==> o in numbered)
    && (forall n: nat :: |numbered| <= n ==> With(p.blocks, n) == [])
  }

  /** The n-th slot: its block is there once nothing waits for it, and until then it is tracked. */
  ghost predicate SlotOK(g: Net, opts: Options, bytes: map<OutSlot, nat>, p: Profile, numbered: seq<OutSlot>, ins: set<InSlot>, n: nat)
    requires n < |numbered| && numbered[n] in bytes && numbered[n].layer in g.info
  {
    var o := numbered[n];
    && With(p.blocks, n) == (if Waiting(g, ins, o) == {} then [BlockOf(g, opts, bytes, o, n)] else [])
    && (g.Sinks(o) != [] ==>
          o in p.tracker && p.tracker[o] == PartialBlock(Start(g, opts, o), |Waiting(g, ins, o)|, Align(bytes[o]), n, g.info[o.layer].backend))
  }

  ghost predicate ProfileOK(g: Net, opts: Options, bytes: map<OutSlot, nat>, p: Profile, numbered: seq<OutSlot>, ins: set<InSlot>) {
    && NumberedOK(g, opts, bytes, p, numbered)
    && (forall n: nat :: n < |numbered| ==> SlotAt(g, opts, bytes, p, numbered, ins, n))
  }

  ghost predicate SlotAt(g: Net, opts: Options, bytes: map<OutSlot, nat>, p: Profile, numbered: seq<OutSlot>, ins: set<InSlot>, n: nat) {
    n < |numbered| && numbered[n] in bytes && numbered[n].layer in g.info && SlotOK(g, opts, bytes, p, numbered, ins, n)
  }

  /** The profile after managed slot o has been visited at step t. */
  ghost function Produced(g: Net, bytes: map<OutSlot, nat>, p: Profile, o: OutSlot, t: nat): Profile
    requires o in bytes && o.layer in g.info
  {
    var size, backend := Align(bytes[o]), g.info[o.layer].backend;
    if g.Sinks(o) == [] then
      p.(blocks := p.blocks + [Block(backend, t, t, size, p.outputIndex)], outputIndex := p.outputIndex + 1)
    else
      p.(tracker := p.tracker[o := PartialBlock(t, |g.Sinks(o)|, size, p.outputIndex, backend)], outputIndex := p.outputIndex + 1)
  }

  lemma {:induction false} WaitingAll(g: Net, ins: set<InSlot>, o: OutSlot)
    requires g.Linked() && forall i :: i in g.source && g.source[i] == o ==> i !in ins
    ensures Waiting(g, ins, o) == Elems(g.Sinks(o)) && |Waiting(g, ins, o)| == |g.Sinks(o)|
    ensures Waiting(g, ins, o) == {} <==> g.Sinks(o) == []
  {
    assert g.SinksOK(o);
    SinksAreReaders(g, o);
    NoDupCardinality(g.Sinks(o));
    if g.Sinks(o) != [] {
      HasMember(g.Sinks(o));
    }
  }

  lemma {:induction false} ProducedOK(g: Net, opts: Options, bytes: map<OutSlot, nat>, p: Profile, numbered: seq<OutSlot>,
                                      ins: set<InSlot>, o: OutSlot)
    requires g.Linked() && ProfileOK(g, opts, bytes, p, numbered, ins) && Managed(g, opts, o) && o in bytes && o !in numbered
    requires forall i :: i in g.source && g.source[i] == o ==> i !in ins
    ensures ProfileOK(g, opts, bytes, Produced(g, bytes, p, o, Start(g, opts, o)), numbered + [o], ins)
  {
    var q, numbered' := Produced(g, bytes, p, o, Start(g, opts, o)), numbered + [o];
    AppendMembers(numbered, o);
    WaitingAll(g, ins, o);
    var b := Block(g.info[o.layer].backend, Start(g, opts, o), Start(g, opts, o), Align(bytes[o]), p.outputIndex);
    forall n: nat
      ensures With(q.blocks, n) == With(p.blocks, n) + if n == p.outputIndex && g.Sinks(o) == [] then [b] else []
    {
      WithNext(p.blocks, b, n);
    }
    forall n: nat | n < |numbered'|
      ensures SlotAt(g, opts, bytes, q, numbered', ins, n)
    {
      if n < |numbered| {
        assert SlotAt(g, opts, bytes, p, numbered, ins, n);
        assert numbered'[n] == numbered[n] && numbered[n] in numbered;
      }
    }
  }

  /** The profile after an edge out of o has been consumed at step t. */
  ghost function Consumed(p: Profile, o: OutSlot, t: nat): Profile
    requires o in p.tracker && p.tracker[o].lifetime > 0
  {
    var b := p.tracker[o];
    p.(tracker := p.tracker[o := b.(lifetime := b.lifetime - 1)],
       blocks := if b.lifetime == 1 then p.blocks + [Block(b.backend, b.start, t, b.size, b.index)] else p.blocks)
  }

  /** The tracker's lookup never misses, and the lifetime it finds is not used up. */
  lemma {:induction false} LookupNeverMisses(g: Net, opts: Options, bytes: map<OutSlot, nat>, p: Profile,
                                             numbered: seq<OutSlot>, ins: set<InSlot>, i: InSlot)
    requires g.Linked() && ProfileOK(g, opts, bytes, p, numbered, ins) && i in g.source && g.source[i] in numbered && i !in ins
    ensures g.source[i] in p.tracker && p.tracker[g.source[i]].lifetime > 0
  {
    var o := g.source[i];
    assert SlotAt(g, opts, bytes, p, numbered, ins, IndexOf(numbered, o));
    assert i in Waiting(g, ins, o) && g.SourceOK(i);
  }

  lemma {:induction false} WaitingNext(g: Net, ins: set<InSlot>, i: InSlot, o: OutSlot)
    requires i in g.source && i !in ins
    ensures Waiting(g, ins + {i}, o) == if g.source[i] == o then Waiting(g, ins, o) - {i} else Waiting(g, ins, o)
    ensures g.source[i] == o ==> i in Waiting(g, ins, o) && |Waiting(g, ins + {i}, o)| == |Waiting(g, ins, o)| - 1
  {
  }

  /** The last reader to be visited ends the lifetime. */
  lemma {:induction false} LastReader(g: Net, opts: Options, ins: set<InSlot>, i: InSlot, k: nat)
    requires g.Linked() && i in g.source && Pos(g, i.layer) == k && (forall j :: j in ins ==> Pos(g, j.layer) <= k)
    requires Waiting(g, ins + {i}, g.source[i]) == {}
    ensures End(g, opts, g.source[i]) == Step(g, opts, k)
  {
    var o := g.source[i];
    assert g.SourceOK(i) && g.SinksOK(o);
    forall j | j in g.Sinks(o)
      ensures StepOf(g, opts, j.layer) <= Step(g, opts, k)
    {
      assert j !in Waiting(g, ins + {i}, o);
      StepMonotone(g, opts, Pos(g, j.layer), k);
    }
    MaxStepAtMost(g, opts, g.Sinks(o), Step(g, opts, k));
    MaxStepIsMax(g, opts, g.Sinks(o), i);
  }

  /** The slot of the consumed edge: its block appears when nothing waits any more. */
  lemma {:induction false} ConsumedSlot(g: Net, opts: Options, bytes: map<OutSlot, nat>, p: Profile, numbered: seq<OutSlot>,
                                        ins: set<InSlot>, i: InSlot, k: nat, m: nat)
    requires g.Linked() && i in g.source && i !in ins && SlotAt(g, opts, bytes, p, numbered, ins, m) && numbered[m] == g.source[i]
    requires Pos(g, i.layer) == k && (forall j :: j in ins ==> Pos(g, j.layer) <= k)
    requires g.source[i] in p.tracker && p.tracker[g.source[i]].lifetime > 0
    ensures SlotAt(g, opts, bytes, Consumed(p, g.source[i], Step(g, opts, k)), numbered, ins + {i}, m)
  {
    var o, t, ins' := g.source[i], Step(g, opts, k), ins + {i};
    var e := p.tracker[o];
    assert g.SourceOK(i);
    WaitingNext(g, ins, i, o);
    WithNext(p.blocks, Block(e.backend, e.start, t, e.size, e.index), m);
    if Waiting(g, ins', o) == {} {
      LastReader(g, opts, ins, i, k);
    } else {
      var x :| x in Waiting(g, ins', o);
      SubsetSize({x}, Waiting(g, ins', o));
    }
  }

  lemma {:induction false} ConsumedOK(g: Net, opts: Options, bytes: map<OutSlot, nat>, p: Profile, numbered: seq<OutSlot>,
                                      ins: set<InSlot>, i: InSlot, k: nat)
    requires g.Linked() && ProfileOK(g, opts, bytes, p, numbered, ins) && i in g.source && g.source[i] in numbered && i !in ins
    requires Pos(g, i.layer) == k && (forall j :: j in ins ==> Pos(g, j.layer) <= k)
    requires g.source[i] in p.tracker && p.tracker[g.source[i]].lifetime > 0
    ensures ProfileOK(g, opts, bytes, Consumed(p, g.source[i], Step(g, opts, k)), numbered, ins + {i})
  {
    var o, t := g.source[i], Step(g, opts, k);
    var q, ins', m := Consumed(p, o, t), ins + {i}, IndexOf(numbered, o);
    var e := p.tracker[o];
    assert SlotAt(g, opts, bytes, p, numbered, ins, m) && g.SourceOK(i);
    forall n: nat | n != m
      ensures With(q.blocks, n) == With(p.blocks, n)
    {
      WithNext(p.blocks, Block(e.backend, e.start, t, e.size, e.index), n);
    }
    forall n: nat | n < |numbered|
      ensures SlotAt(g, opts, bytes, q, numbered, ins', n)
    {
      assert SlotAt(g, opts, bytes, p, numbered, ins, n);
      if n == m {
        ConsumedSlot(g, opts, bytes, p, numbered, ins, i, k, m);
      } else {
        IndexOfUnique(numbered, n);
        WaitingNext(g, ins, i, numbered[n]);
      }
    }
  }

  lemma {:induction false} OtherInput(g: Net, opts: Options, bytes: map<OutSlot, nat>, p: Profile, numbered: seq<OutSlot>,
                                      ins: set<InSlot>, i: InSlot)
    requires ProfileOK(g, opts, bytes, p, numbered, ins) && i in g.source && g.source[i] !in numbered && i !in ins
    ensures ProfileOK(g, opts, bytes, p, numbered, ins + {i})
  {
    var ins' := ins + {i};
    forall n: nat | n < |numbered|
      ensures SlotAt(g, opts, bytes, p, numbered, ins', n)
    {
      assert SlotAt(g, opts, bytes, p, numbered, ins, n) && numbered[n] in numbered;
      WaitingNext(g, ins, i, numbered[n]);
    }
  }

  /** The walk has come to the j-th output slot and the c-th input slot of the layer at position k. */
  ghost predicate Reached(g: Net, opts: Options, numbered: seq<OutSlot>, ins: set<InSlot>, k: nat, j: nat, c: nat) {
    && (forall o :: o in numbered <==> Managed(g, opts, o) && (Pos(g, o.layer) < k || (Pos(g, o.layer) == k && o.index < j)))
    && (forall i :: i in ins <==> i in g.source && !Skipped(g, opts, i.layer) && (Pos(g, i.layer) < k || (Pos(g, i.layer) == k && i.index < c)))
  }

  lemma {:induction false} AtPosition(g: Net, k: nat)
    requires g.Listed() && k < |g.layers|
    ensures g.layers[k] in g.info && Pos(g, g.layers[k]) == k
    ensures forall l :: l in g.info && Pos(g, l) == k ==> l == g.layers[k]
  {
    IndexOfUnique(g.layers, k);
    assert g.layers[k] in g.layers;
    assert forall l :: l in g.info ==> l in g.layers;
  }

  lemma {:induction false} ReachedOutput(g: Net, opts: Options, numbered: seq<OutSlot>, ins: set<InSlot>, k: nat, j: nat, o: OutSlot)
    requires g.Valid() && Forward(g) && k < |g.layers| && Reached(g, opts, numbered, ins, k, j, 0)
    requires o == OutSlot(g.layers[k], j) && Managed(g, opts, o)
    ensures o !in numbered && (forall i :: i in g.source && g.source[i] == o ==> i !in ins)
    ensures Reached(g, opts, numbered + [o], ins, k, j + 1, 0)
    ensures StepOf(g, opts, o.layer) == Step(g, opts, k)
  {
    AtPosition(g, k);
  }

  lemma {:induction false} ReachedInput(g: Net, opts: Options, numbered: seq<OutSlot>, ins: set<InSlot>, k: nat, c: nat, i: InSlot)
    requires g.Valid() && Forward(g) && k < |g.layers| && g.layers[k] in g.info && !Skipped(g, opts, g.layers[k])
    requires Reached(g, opts, numbered, ins, k, g.info[g.layers[k]].numOut, c) && i == InSlot(g.layers[k], c) && i in g.source
    ensures g.source[i] in numbered <==> Managed(g, opts, g.source[i])
    ensures i !in ins && Pos(g, i.layer) == k && (forall x :: x in ins ==> Pos(g, x.layer) <= k)
    ensures g.source[i].layer in g.info
    ensures Reached(g, opts, numbered, ins + {i}, k, g.info[g.layers[k]].numOut, c + 1)
  {
    AtPosition(g, k);
    assert g.SourceOK(i);
    forall x | x in g.source && Pos(g, x.layer) == k
      ensures x.layer == g.layers[k]
    {
      assert g.SourceOK(x);
    }
  }

  lemma {:induction false} ReachedNext(g: Net, opts: Options, numbered: seq<OutSlot>, ins: set<InSlot>, k: nat)
    requires g.Valid() && k < |g.layers| && g.layers[k] in g.info && !Skipped(g, opts, g.layers[k])
    requires Reached(g, opts, numbered, ins, k, g.info[g.layers[k]].numOut, g.info[g.layers[k]].numIn)
    ensures Reached(g, opts, numbered, ins, k + 1, 0, 0)
  {
    AtPosition(g, k);
    assert forall i :: i in g.source ==> g.SourceOK(i);
  }

  lemma {:induction false} ReachedSkip(g: Net, opts: Options, numbered: seq<OutSlot>, ins: set<InSlot>, k: nat)
    requires g.Valid() && k < |g.layers| && Skipped(g, opts, g.layers[k]) && Reached(g, opts, numbered, ins, k, 0, 0)
    ensures Reached(g, opts, numbered, ins, k + 1, 0, 0)
  {
    AtPosition(g, k);
    assert forall i :: i in g.source ==> g.SourceOK(i);
  }

  /** Only the Output layer that exports o's value keeps o waiting for ever. */
  lemma {:induction false} OnlyExportedWait(g: Net, opts: Options, numbered: seq<OutSlot>, ins: set<InSlot>, o: OutSlot)
    requires g.Valid() && Reached(g, opts, numbered, ins, |g.layers|, 0, 0) && g.IsOut(o)
    ensures Waiting(g, ins, o) == {} <==> !Exported(g, opts, o)
  {
    assert forall l :: l in g.info ==> l in g.layers;
    assert g.SinksOK(o);
    if Exported(g, opts, o) {
      var i := g.Sinks(o)[0];
      HasMember(g.Sinks(o));
      assert g.SourceOK(i) && i == InSlot(i.layer, 0);
      assert i in Waiting(g, ins, o);
    } else {
      forall i | i in g.source && g.source[i] == o
        ensures i in ins
      {
        assert g.SourceOK(i) && i.layer in g.layers;
        NotExported(g, opts, i);
      }
    }
  }

  lemma {:induction false} NotExported(g: Net, opts: Options, i: InSlot)
    requires g.Valid() && i in g.source && !Exported(g, opts, g.source[i])
    ensures !Skipped(g, opts, i.layer)
  {
    assert g.SourceOK(i);
    var o := g.source[i];
    assert g.Sinks(o)[IndexOf(g.Sinks(o), i)] == i;
  }

  /** The managed slots have the numbers 0, 1, ...; each has exactly one block, or none if it is exported. */
  ghost predicate OneBlockEach(g: Net, opts: Options, bytes: map<OutSlot, nat>, blocks: seq<Block>, numbered: seq<OutSlot>) {
    && NoDup(numbered) && (forall o :: o in numbered <==> Managed(g, opts, o))
    && (forall n: nat :: |numbered| <= n ==> With(blocks, n) == [])
    && (forall n: nat :: n < |numbered| ==> BlockAt(g, opts, bytes, blocks, numbered, n))
  }

  ghost predicate BlockAt(g: Net, opts: Options, bytes: map<OutSlot, nat>, blocks: seq<Block>, numbered: seq<OutSlot>, n: nat)
    requires n < |numbered|
  {
    && numbered[n] in bytes && numbered[n].layer in g.info
    && With(blocks, n) == if Exported(g, opts, numbered[n]) then [] else [BlockOf(g, opts, bytes, numbered[n], n)]
  }

  lemma {:induction false} ProfileEnds(g: Net, opts: Options, bytes: map<OutSlot, nat>, p: Profile, numbered: seq<OutSlot>,
                                       ins: set<InSlot>)
    requires g.Valid() && ProfileOK(g, opts, bytes, p, numbered, ins) && Reached(g, opts, numbered, ins, |g.layers|, 0, 0)
    ensures OneBlockEach(g, opts, bytes, p.blocks, numbered)
  {
    assert forall l :: l in g.info ==> l in g.layers;
    forall n: nat | n < |numbered|
      ensures BlockAt(g, opts, bytes, p.blocks, numbered, n)
    {
      assert SlotAt(g, opts, bytes, p, numbered, ins, n) && numbered[n] in numbered;
      OnlyExportedWait(g, opts, numbered, ins, numbered[n]);
    }
  }

  function SlotsOf(l: LayerId, n: nat): (r: seq<OutSlot>)
    ensures |r| == n
    ensures forall j {:trigger r[j]} :: 0 <= j < n ==> r[j] == OutSlot(l, j)
  {
    seq(n, j requires 0 <= j => OutSlot(l, j))
  }

  /** The managed slots of the first k layers, in order. */
  function ManagedUpTo(g: Net, opts: Options, k: nat): seq<OutSlot> {
    if k == 0 then []
    else
      ManagedUpTo(g, opts, k - 1) +
      if k <= |g.layers| && g.layers[k - 1] in g.info && !Skipped(g, opts, g.layers[k - 1])
      then SlotsOf(g.layers[k - 1], g.info[g.layers[k - 1]].numOut) else []
  }

  /** What the profile needs to know beforehand: the backend of every layer supports external memory. */
  ghost predicate Profilable(g: Net, opts: Options, bytes: map<OutSlot, nat>, supports: set<string>) {
    && g.Valid() && Sorted(g)
    && (forall i :: g.IsIn(i) ==> i in g.source)
    && (forall l :: l in g.info ==> g.info[l].backend in supports)
    && (forall o :: Managed(g, opts, o) ==> o in bytes)
  }

  /** The output slots of the layer at position k. */
  method ProfileOutputs(g: Net, opts: Options, bytes: map<OutSlot, nat>, supports: set<string>, p: Profile, timestep: nat, k: nat,
                        ghost numbered: seq<OutSlot>, ghost ins: set<InSlot>)
    returns (p': Profile, ghost numbered': seq<OutSlot>)
    requires Profilable(g, opts, bytes, supports) && k < |g.layers| && g.layers[k] in g.info && !Skipped(g, opts, g.layers[k])
    requires timestep == Step(g, opts, k) && ProfileOK(g, opts, bytes, p, numbered, ins) && Reached(g, opts, numbered, ins, k, 0, 0)
    ensures ProfileOK(g, opts, bytes, p', numbered', ins) && Reached(g, opts, numbered', ins, k, g.info[g.layers[k]].numOut, 0)
    ensures numbered' == numbered + SlotsOf(g.layers[k], g.info[g.layers[k]].numOut)
  {
    p', numbered' := p, numbered;
    var layer := g.layers[k];
    var j := 0;
    while j < g.info[layer].numOut
      invariant j <= g.info[layer].numOut && ProfileOK(g, opts, bytes, p', numbered', ins) && Reached(g, opts, numbered', ins, k, j, 0)
      invariant numbered' == numbered + SlotsOf(layer, j)
    {
      var o := OutSlot(layer, j);
      ReachedOutput(g, opts, numbered', ins, k, j, o);
      ProducedOK(g, opts, bytes, p', numbered', ins, o);
      if g.info[layer].backend in supports {
        p' := ProfileOutput(g, bytes, p', o, timestep);
      }
      numbered' := numbered' + [o];
      j := j + 1;
    }
  }

  method ProfileOutput(g: Net, bytes: map<OutSlot, nat>, p: Profile, o: OutSlot, timestep: nat) returns (p': Profile)
    requires o in bytes && o.layer in g.info
    ensures p' == Produced(g, bytes, p, o, timestep)
  {
    var partial := PartialBlock(timestep, |g.Sinks(o)|, Align(bytes[o]), p.outputIndex, g.info[o.layer].backend);
    p' := p.(outputIndex := p.outputIndex + 1);
    if partial.lifetime == 0 {
      p' := p'.(blocks := p'.blocks + [Block(partial.backend, partial.start, partial.start, partial.size, partial.index)]);
    } else {
      p' := p'.(tracker := p'.tracker[o := partial]);
    }
  }

  method ProfileInput(p: Profile, o: OutSlot, timestep: nat) returns (p': Profile)
    requires o in p.tracker && p.tracker[o].lifetime > 0
    ensures p' == Consumed(p, o, timestep)
  {
    var partial := p.tracker[o];
    partial := partial.(lifetime := partial.lifetime - 1);
    p' := p.(tracker := p.tracker[o := partial]);
    if partial.lifetime == 0 {
      p' := p'.(blocks := p'.blocks + [Block(partial.backend, partial.start, timestep, partial.size, partial.index)]);
    }
  }

  /** The input slots of the layer at position k. */
  method ProfileInputs(g: Net, opts: Options, bytes: map<OutSlot, nat>, ghost supports: set<string>, p: Profile, timestep: nat, k: nat,
                       ghost numbered: seq<OutSlot>, ghost ins: set<InSlot>)
    returns (p': Profile, ghost ins': set<InSlot>)
    requires Profilable(g, opts, bytes, supports) && k < |g.layers| && g.layers[k] in g.info && !Skipped(g, opts, g.layers[k])
    requires timestep == Step(g, opts, k) && ProfileOK(g, opts, bytes, p, numbered, ins)
    requires Reached(g, opts, numbered, ins, k, g.info[g.layers[k]].numOut, 0)
    ensures ProfileOK(g, opts, bytes, p', numbered, ins')
    ensures Reached(g, opts, numbered, ins', k, g.info[g.layers[k]].numOut, g.info[g.layers[k]].numIn)
  {
    p', ins' := p, ins;
    var layer := g.layers[k];
    var c := 0;
    while c < g.info[layer].numIn
      invariant c <= g.info[layer].numIn && ProfileOK(g, opts, bytes, p', numbered, ins')
      invariant Reached(g, opts, numbered, ins', k, g.info[layer].numOut, c)
    {
      var i := InSlot(layer, c);
      assert g.IsIn(i) && g.SourceOK(i);
      var o := g.source[i];
      ReachedInput(g, opts, numbered, ins', k, c, i);
      var kind := g.info[o.layer].kind;
      if !kind.Constant? && !(opts.importInputs && kind.Input?) {
        LookupNeverMisses(g, opts, bytes, p', numbered, ins', i);
        ConsumedOK(g, opts, bytes, p', numbered, ins', i, k);
        p' := ProfileInput(p', o, timestep);
      } else {
        OtherInput(g, opts, bytes, p', numbered, ins', i);
      }
      ins' := ins' + {i};
      c := c + 1;
    }
  }

  /** What holds between two layers of the walk: k layers have been visited. */
  ghost predicate Profiled(g: Net, opts: Options, bytes: map<OutSlot, nat>, p: Profile, timestep: nat, k: nat,
                           numbered: seq<OutSlot>, ins: set<InSlot>) {
    && timestep == Step(g, opts, k) && numbered == ManagedUpTo(g, opts, k)
    && ProfileOK(g, opts, bytes, p, numbered, ins) && Reached(g, opts, numbered, ins, k, 0, 0)
  }

  /** One layer of the walk. */
  method ProfileLayer(g: Net, opts: Options, bytes: map<OutSlot, nat>, supports: set<string>, p: Profile, timestep: nat, k: nat,
                      ghost numbered: seq<OutSlot>, ghost ins: set<InSlot>)
    returns (p': Profile, timestep': nat, ghost numbered': seq<OutSlot>, ghost ins': set<InSlot>)
    requires Profilable(g, opts, bytes, supports) && k < |g.layers| && Profiled(g, opts, bytes, p, timestep, k, numbered, ins)
    ensures Profiled(g, opts, bytes, p', timestep', k + 1, numbered', ins')
  {
    p', timestep', numbered', ins' := p, timestep, numbered, ins;
    AtPosition(g, k);
    if Skipped(g, opts, g.layers[k]) {
      ReachedSkip(g, opts, numbered, ins, k);
    } else {
      p', numbered' := ProfileOutputs(g, opts, bytes, supports, p', timestep, k, numbered', ins');
      p', ins' := ProfileInputs(g, opts, bytes, supports, p', timestep, k, numbered', ins');
      ReachedNext(g, opts, numbered', ins', k);
      timestep' := timestep + 1;
    }
  }

  /** The layer at position p takes part: it is no Constant, no Input that is imported, and no Output that is exported to as
      the only reader of its slot. */
  ghost predicate TakesPart(g: Net, opts: Options, p: nat) {
    p < |g.layers| && g.layers[p] in g.info && !g.info[g.layers[p]].kind.Constant?
    && !(g.info[g.layers[p]].kind.Input? && opts.importInputs)
    && !(g.info[g.layers[p]].kind.Output? && opts.exportOutputs
         && InSlot(g.layers[p], 0) in g.source && |g.Sinks(g.source[InSlot(g.layers[p], 0)])| == 1)
  }

  /** The positions before k whose layers take part; as many as there are is the time at position k. */
  ghost function PartBefore(g: Net, opts: Options, k: nat): set<nat> {
    set p: nat | p < k && TakesPart(g, opts, p)
  }

  lemma {:induction false} StepIsCount(g: Net, opts: Options, k: nat)
    requires g.Listed() && k <= |g.layers|
    ensures Step(g, opts, k) == |PartBefore(g, opts, k)|
  {
    if k == 0 {
      assert PartBefore(g, opts, k) == {};
    } else {
      var j := k - 1;
      StepIsCount(g, opts, j);
      assert g.layers[j] in g.layers;
      PartNext(g, opts, j, k);
    }
  }

  lemma {:induction false} PartNext(g: Net, opts: Options, j: nat, k: nat)
    requires k == j + 1
    ensures |PartBefore(g, opts, k)| == |PartBefore(g, opts, j)| + if TakesPart(g, opts, j) then 1 else 0
  {
    var s, t := PartBefore(g, opts, j), PartBefore(g, opts, k);
    if TakesPart(g, opts, j) {
      assert t == s + {j} && j !in s;
    } else {
      assert t == s;
    }
  }

  /** A slot that has a block: not a Constant's, not an imported Input's, and not exported to its only reader. */
  ghost predicate HasBlock(g: Net, opts: Options, o: OutSlot) {
    IsNumbered(g, opts, o) && !(opts.exportOutputs && exists l :: l in g.info && g.info[l].kind.Output? && g.Sinks(o) == [InSlot(l, 0)])
  }

  ghost predicate IsNumbered(g: Net, opts: Options, o: OutSlot) {
    o.layer in g.info && o.index < g.info[o.layer].numOut && !g.info[o.layer].kind.Constant?
    && !(g.info[o.layer].kind.Input? && opts.importInputs)
  }

  /** p is visited before o. */
  ghost predicate VisitedBefore(g: Net, p: OutSlot, o: OutSlot) {
    Pos(g, p.layer) < Pos(g, o.layer) || (p.layer == o.layer && p.index < o.index)
  }

  /** The slots that are numbered before o. */
  ghost function NumberedBefore(g: Net, opts: Options, o: OutSlot): set<OutSlot> {
    set l, k: nat | l in g.info && k < g.info[l].numOut && IsNumbered(g, opts, OutSlot(l, k)) && VisitedBefore(g, OutSlot(l, k), o)
      :: OutSlot(l, k)
  }

  /** i is the last reader in the order of the list. */
  ghost predicate IsLast(g: Net, s: seq<InSlot>, i: InSlot) {
    i in s && forall j :: j in s ==> Pos(g, j.layer) <= Pos(g, i.layer)
  }

  /** The block of slot o: on the backend of its layer, from the time of its layer to the time of its last reader, or of its
      layer alone if it has none, with the least multiple of 4 that holds its bytes, under the next free number. */
  ghost predicate IsBlockOf(g: Net, opts: Options, bytes: map<OutSlot, nat>, o: OutSlot, b: Block) {
    && o.layer in g.info && o in bytes && b.backend == g.info[o.layer].backend
    && b.start == |PartBefore(g, opts, Pos(g, o.layer))|
    && (g.Sinks(o) == [] ==> b.end == b.start)
    && (forall i :: IsLast(g, g.Sinks(o), i) ==> b.end == |PartBefore(g, opts, Pos(g, i.layer))|)
    && bytes[o] <= b.size < bytes[o] + 4 && b.size % 4 == 0 && b.index == |NumberedBefore(g, opts, o)|
  }

  ghost predicate IsListed(g: Net, opts: Options, bytes: map<OutSlot, nat>, blocks: seq<Block>, o: OutSlot) {
    exists k :: 0 <= k < |blocks| && IsBlockOf(g, opts, bytes, o, blocks[k])
  }

  ghost predicate IsForSlot(g: Net, opts: Options, bytes: map<OutSlot, nat>, b: Block) {
    exists o :: HasBlock(g, opts, o) && IsBlockOf(g, opts, bytes, o, b)
  }

  /** The blocks are those of the slots that have one, each once. */
  ghost predicate BlocksRight(g: Net, opts: Options, bytes: map<OutSlot, nat>, blocks: seq<Block>) {
    && (forall o :: HasBlock(g, opts, o) ==> IsListed(g, opts, bytes, blocks, o))
    && (forall k :: 0 <= k < |blocks| ==> IsForSlot(g, opts, bytes, blocks[k]))
    && (forall j, k :: 0 <= j < k < |blocks| ==> blocks[j].index != blocks[k].index)
  }

  /** The numbered slots stand in the order of the walk. */
  ghost predicate InOrder(g: Net, s: seq<OutSlot>) {
    forall m, n :: 0 <= m < n < |s| ==> VisitedBefore(g, s[m], s[n])
  }

  lemma {:induction false} NumberedInOrder(g: Net, opts: Options, k: nat)
    requires g.Listed() && k <= |g.layers|
    ensures OrderedTo(g, ManagedUpTo(g, opts, k), k)
  {
    if k > 0 {
      var j: nat := k - 1;
      NumberedInOrder(g, opts, j);
      AtPosition(g, j);
      StillInOrder(g, ManagedUpTo(g, opts, j), g.layers[j], g.info[g.layers[j]].numOut, j, k);
      NumberedUnfold(g, opts, j, k);
    }
  }

  lemma {:induction false} NumberedUnfold(g: Net, opts: Options, j: nat, k: nat)
    requires k == j + 1 <= |g.layers| && g.layers[j] in g.info
    ensures ManagedUpTo(g, opts, k) == ManagedUpTo(g, opts, j)
            || ManagedUpTo(g, opts, k) == ManagedUpTo(g, opts, j) + SlotsOf(g.layers[j], g.info[g.layers[j]].numOut)
  {
    if Skipped(g, opts, g.layers[j]) {
      assert ManagedUpTo(g, opts, k) == ManagedUpTo(g, opts, j) + [];
    }
  }

  /** In order, and of layers before position k. */
  ghost predicate OrderedTo(g: Net, s: seq<OutSlot>, k: nat) {
    InOrder(g, s) && forall m :: 0 <= m < |s| ==> Pos(g, s[m].layer) < k
  }

  lemma {:induction false} StillInOrder(g: Net, s: seq<OutSlot>, l: LayerId, n: nat, j: nat, k: nat)
    requires OrderedTo(g, s, j) && Pos(g, l) == j && k == j + 1
    ensures OrderedTo(g, s, k) && OrderedTo(g, s + SlotsOf(l, n), k)
  {
  }

  lemma {:induction false} NumberIsCount(g: Net, opts: Options, numbered: seq<OutSlot>, n: nat)
    requires g.Listed() && NoDup(numbered) && InOrder(g, numbered) && n < |numbered|
    requires forall o :: o in numbered <==> Managed(g, opts, o)
    ensures |NumberedBefore(g, opts, numbered[n])| == n
  {
    var s, o := numbered[..n], numbered[n];
    forall p | p in NumberedBefore(g, opts, o)
      ensures p in s
    {
      assert Managed(g, opts, p) && p in numbered;
      var m := IndexOf(numbered, p);
      assert numbered[m] == p;
      NotBefore(g, numbered, m, n);
      assert s[m] == p;
    }
    forall p | p in s
      ensures p in NumberedBefore(g, opts, o)
    {
      var m := IndexOf(s, p);
      assert numbered[m] == p && p in numbered;
    }
    assert NumberedBefore(g, opts, o) == Elems(s);
    NoDupPrefix(numbered, n);
    NoDupCardinality(s);
  }

  lemma {:induction false} NotBefore(g: Net, s: seq<OutSlot>, m: nat, n: nat)
    requires InOrder(g, s) && m < |s| && n < |s| && VisitedBefore(g, s[m], s[n])
    ensures m < n
  {
    assert n < m ==> VisitedBefore(g, s[n], s[m]);
  }

  lemma {:induction false} LastHasMaxStep(g: Net, opts: Options, s: seq<InSlot>, i: InSlot)
    requires IsLast(g, s, i)
    ensures MaxStep(g, opts, s) == StepOf(g, opts, i.layer)
  {
    MaxStepIsMax(g, opts, s, i);
    forall j | j in s
      ensures StepOf(g, opts, j.layer) <= StepOf(g, opts, i.layer)
    {
      StepMonotone(g, opts, Pos(g, j.layer), Pos(g, i.layer));
    }
    MaxStepAtMost(g, opts, s, StepOf(g, opts, i.layer));
  }

  lemma {:induction false} BlockIsRight(g: Net, opts: Options, bytes: map<OutSlot, nat>, numbered: seq<OutSlot>, n: nat)
    requires g.Valid() && numbered == ManagedUpTo(g, opts, |g.layers|) && NoDup(numbered) && n < |numbered|
    requires (forall o :: o in numbered <==> Managed(g, opts, o)) && numbered[n] in bytes && numbered[n].layer in g.info
    ensures IsBlockOf(g, opts, bytes, numbered[n], BlockOf(g, opts, bytes, numbered[n], n))
  {
    var o := numbered[n];
    NumberedInOrder(g, opts, |g.layers|);
    NumberIsCount(g, opts, numbered, n);
    assert o.layer in g.layers && g.SinksOK(o);
    StepIsCount(g, opts, Pos(g, o.layer));
    forall i | IsLast(g, g.Sinks(o), i)
      ensures End(g, opts, o) == |PartBefore(g, opts, Pos(g, i.layer))|
    {
      assert g.SourceOK(i) && i.layer in g.layers;
      LastHasMaxStep(g, opts, g.Sinks(o), i);
      StepIsCount(g, opts, Pos(g, i.layer));
    }
  }

  lemma {:induction false} BlockNeeded(g: Net, opts: Options, o: OutSlot)
    requires g.Valid()
    ensures HasBlock(g, opts, o) <==> Managed(g, opts, o) && !Exported(g, opts, o)
  {
    assert g.SinksOK(o);
    if Exported(g, opts, o) && Managed(g, opts, o) {
      var i := g.Sinks(o)[0];
      assert i in g.Sinks(o) && g.SourceOK(i) && g.info[i.layer].WellShaped();
    }
  }

  lemma {:induction false} WithMember(blocks: seq<Block>, n: nat, b: Block)
    requires With(blocks, n) == [b]
    ensures b in blocks
  {
    var rest := blocks[..|blocks| - 1];
    if blocks[|blocks| - 1].index == n {
      var w := With(rest, n) + [blocks[|blocks| - 1]];
      assert w == [b] && w[|w| - 1] == blocks[|blocks| - 1];
    } else {
      WithMember(rest, n, b);
    }
  }

  lemma {:induction false} MemberOfWith(blocks: seq<Block>, k: nat)
    requires k < |blocks|
    ensures blocks[k] in With(blocks, blocks[k].index)
  {
    if k < |blocks| - 1 {
      MemberOfWith(blocks[..|blocks| - 1], k);
    }
  }

  lemma {:induction false} IndexBelow(blocks: seq<Block>, bound: nat, k: nat)
    requires k < |blocks| && forall n: nat :: bound <= n ==> With(blocks, n) == []
    ensures blocks[k].index < bound
  {
    MemberOfWith(blocks, k);
  }

  lemma {:induction false} TwoInWith(blocks: seq<Block>, j: nat, k: nat)
    requires j < k < |blocks| && blocks[j].index == blocks[k].index
    ensures |With(blocks, blocks[k].index)| >= 2
  {
    var rest := blocks[..|blocks| - 1];
    if k < |blocks| - 1 {
      TwoInWith(rest, j, k);
    } else {
      MemberOfWith(rest, j);
    }
  }

  ghost predicate RightAt(g: Net, opts: Options, bytes: map<OutSlot, nat>, numbered: seq<OutSlot>, n: nat)
    requires n < |numbered|
  {
    && numbered[n] in bytes && numbered[n].layer in g.info
    && IsBlockOf(g, opts, bytes, numbered[n], BlockOf(g, opts, bytes, numbered[n], n))
  }

  lemma {:induction false} BlockOfSlot(g: Net, opts: Options, bytes: map<OutSlot, nat>, blocks: seq<Block>, numbered: seq<OutSlot>, o: OutSlot)
    requires g.Valid() && OneBlockEach(g, opts, bytes, blocks, numbered) && HasBlock(g, opts, o)
    requires forall n: nat :: n < |numbered| ==> RightAt(g, opts, bytes, numbered, n)
    ensures IsListed(g, opts, bytes, blocks, o)
  {
    BlockNeeded(g, opts, o);
    var n := IndexOf(numbered, o);
    assert o in numbered && numbered[n] == o;
    assert BlockAt(g, opts, bytes, blocks, numbered, n) && RightAt(g, opts, bytes, numbered, n);
    var b := BlockOf(g, opts, bytes, o, n);
    WithMember(blocks, n, b);
    assert blocks[IndexOf(blocks, b)] == b;
  }

  lemma {:induction false} SlotOfBlock(g: Net, opts: Options, bytes: map<OutSlot, nat>, blocks: seq<Block>, numbered: seq<OutSlot>, k: nat)
    requires g.Valid() && OneBlockEach(g, opts, bytes, blocks, numbered) && k < |blocks|
    requires forall n: nat :: n < |numbered| ==> RightAt(g, opts, bytes, numbered, n)
    ensures IsForSlot(g, opts, bytes, blocks[k])
  {
    var n := blocks[k].index;
    MemberOfWith(blocks, k);
    IndexBelow(blocks, |numbered|, k);
    assert BlockAt(g, opts, bytes, blocks, numbered, n) && RightAt(g, opts, bytes, numbered, n) && numbered[n] in numbered;
    BlockNeeded(g, opts, numbered[n]);
    assert blocks[k] == BlockOf(g, opts, bytes, numbered[n], n);
  }

  lemma {:induction false} BlocksDiffer(g: Net, opts: Options, bytes: map<OutSlot, nat>, blocks: seq<Block>, numbered: seq<OutSlot>, j: nat, k: nat)
    requires OneBlockEach(g, opts, bytes, blocks, numbered) && j < k < |blocks|
    ensures blocks[j].index != blocks[k].index
  {
    var n := blocks[k].index;
    IndexBelow(blocks, |numbered|, k);
    assert BlockAt(g, opts, bytes, blocks, numbered, n);
    if blocks[j].index == n {
      TwoInWith(blocks, j, k);
      assert false;
    }
  }

  lemma {:induction false} BlocksAreRight(g: Net, opts: Options, bytes: map<OutSlot, nat>, blocks: seq<Block>, numbered: seq<OutSlot>)
    requires g.Valid() && OneBlockEach(g, opts, bytes, blocks, numbered) && numbered == ManagedUpTo(g, opts, |g.layers|)
    ensures BlocksRight(g, opts, bytes, blocks)
  {
    forall n: nat | n < |numbered|
      ensures RightAt(g, opts, bytes, numbered, n)
    {
      assert BlockAt(g, opts, bytes, blocks, numbered, n);
      BlockIsRight(g, opts, bytes, numbered, n);
    }
    forall o | HasBlock(g, opts, o)
      ensures IsListed(g, opts, bytes, blocks, o)
    {
      BlockOfSlot(g, opts, bytes, blocks, numbered, o);
    }
    forall k | 0 <= k < |blocks|
      ensures IsForSlot(g, opts, bytes, blocks[k])
    {
      SlotOfBlock(g, opts, bytes, blocks, numbered, k);
    }
    forall j, k | 0 <= j < k < |blocks|
      ensures blocks[j].index != blocks[k].index
    {
      BlocksDiffer(g, opts, bytes, blocks, numbered, j, k);
    }
  }

  /** LoadedNetwork::CreateMemoryProfileAsync. The blocks of all backends are kept in one list. */
  method CreateMemoryProfile(g: Net, opts: Options, bytes: map<OutSlot, nat>, supports: set<string>)
    returns (blocks: seq<Block>)
    requires Profilable(g, opts, bytes, supports)
    ensures OneBlockEach(g, opts, bytes, blocks, ManagedUpTo(g, opts, |g.layers|))
    ensures BlocksRight(g, opts, bytes, blocks)
  {
    var p := Profile([], map[], 0);
    ghost var numbered: seq<OutSlot>, ins: set<InSlot> := [], {};
    ProfileStarts(g, opts, bytes);
    var timestep := 0;
    var k: nat := 0;
    while k < |g.layers|
      invariant k <= |g.layers| && Profiled(g, opts, bytes, p, timestep, k, numbered, ins)
    {
      p, timestep, numbered, ins := ProfileLayer(g, opts, bytes, supports, p, timestep, k, numbered, ins);
      k := k + 1;
    }
    ProfileEnds(g, opts, bytes, p, numbered, ins);
    blocks := p.blocks;
    BlocksAreRight(g, opts, bytes, blocks, numbered);
  }

  lemma {:induction false} ProfileStarts(g: Net, opts: Options, bytes: map<OutSlot, nat>)
    ensures Profiled(g, opts, bytes, Profile([], map[], 0), 0, 0, [], {})
  {
  }
}
