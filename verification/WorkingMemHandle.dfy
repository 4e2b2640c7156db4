/** The indices that tie an asynchronous execution's working memory to the network. */
module WorkingMemHandle {
  import opened Sequences
  import opened NetGraph
  import opened Ordering
  import opened MemoryProfile

  /** Layers with a workload in the queue of an asynchronous network; Constants are run when it is loaded. */
  predicate Queued(g: Net, l: LayerId) {
    l in g.info && g.info[l].Rank() == 1 && !g.info[l].kind.Constant?
  }

  /** Layers with a working memory descriptor and execution data. */
  predicate HasExecutionData(g: Net, l: LayerId) {
    l in g.info && !g.info[l].kind.Constant? && !g.info[l].kind.Input? && !g.info[l].kind.MemImport?
  }

  function QueueOf(g: Net, s: seq<LayerId>): seq<LayerId> {
    if s == [] then [] else (if Queued(g, s[0]) then [s[0]] else []) + QueueOf(g, s[1..])
  }

  function ExecutionDataOf(g: Net, s: seq<LayerId>): seq<LayerId> {
    if s == [] then [] else (if HasExecutionData(g, s[0]) then [s[0]] else []) + ExecutionDataOf(g, s[1..])
  }

  /** Execution data i belongs to workload i, for every workload. */
  ghost predicate Agree(queue: seq<LayerId>, data: seq<LayerId>) {
    |queue| <= |data| && forall i :: 0 <= i < |queue| ==> data[i] == queue[i]
  }

  ghost predicate OutputsAtEnd(g: Net, s: seq<LayerId>) {
    && (forall k :: 0 <= k < |s| ==> s[k] in g.info)
    && (forall j, k :: 0 <= j < k < |s| && g.info[s[j]].kind.Output? ==> g.info[s[k]].kind.Output?)
  }

  lemma {:induction false} ExecutionDataMembers(g: Net, s: seq<LayerId>)
    ensures forall l :: l in ExecutionDataOf(g, s) ==> l in s && HasExecutionData(g, l)
  {
    if s != [] {
      ExecutionDataMembers(g, s[1..]);
    }
  }

  lemma {:induction false} OnlyOutputs(g: Net, s: seq<LayerId>)
    requires forall k :: 0 <= k < |s| ==> s[k] in g.info && g.info[s[k]].kind.Output?
    ensures QueueOf(g, s) == []
  {
    if s != [] {
      OnlyOutputs(g, s[1..]);
    }
  }

  lemma {:induction false} TailFacts(g: Net, s: seq<LayerId>)
    requires s != [] && NoDup(s) && OutputsAtEnd(g, s)
    ensures NoDup(s[1..]) && OutputsAtEnd(g, s[1..]) && s[0] !in s[1..]
  {
    assert s[1..] == RemoveAt(s, 0);
    RemoveAtMembers(s, 0);
  }

  /** Workloads and execution data have the same indices exactly when the network has no MemImport layer. */
  lemma {:induction false} AgreeExactly(g: Net, s: seq<LayerId>)
    requires NoDup(s) && OutputsAtEnd(g, s)
    ensures Agree(QueueOf(g, s), ExecutionDataOf(g, s)) <==> forall l :: l in s ==> !g.info[l].kind.MemImport?
  {
    if s != [] {
      var t := s[1..];
      TailFacts(g, s);
      AgreeExactly(g, t);
      assert forall l :: l in s <==> l == s[0] || l in t;
      var q, d := QueueOf(g, t), ExecutionDataOf(g, t);
      if g.info[s[0]].kind.MemImport? {
        ExecutionDataMembers(g, t);
        assert QueueOf(g, s) == [s[0]] + q && ExecutionDataOf(g, s) == d;
        assert QueueOf(g, s)[0] == s[0];
        assert |d| > 0 ==> d[0] in d;
      } else if g.info[s[0]].kind.Output? {
        OnlyOutputs(g, t);
        assert forall k :: 0 <= k < |t| ==> t[k] == s[k + 1];
        assert forall l :: l in t ==> g.info[t[IndexOf(t, l)]].kind.Output?;
      } else if Queued(g, s[0]) {
        assert QueueOf(g, s) == [s[0]] + q && ExecutionDataOf(g, s) == [s[0]] + d;
        AgreeShift(s[0], q, d);
      } else {
        assert QueueOf(g, s) == q && ExecutionDataOf(g, s) == d;
      }
    }
  }

  lemma {:induction false} AgreeShift(l: LayerId, q: seq<LayerId>, d: seq<LayerId>)
    ensures Agree([l] + q, [l] + d) <==> Agree(q, d)
  {
    if Agree([l] + q, [l] + d) {
      forall i | 0 <= i < |q|
        ensures d[i] == q[i]
      {
        assert ([l] + d)[i + 1] == ([l] + q)[i + 1];
      }
    }
  }

  /** In a sorted list the Outputs come last. */
  lemma {:induction false} SortedEndsInOutputs(g: Net)
    requires g.Valid() && Partitioned(g)
    ensures OutputsAtEnd(g, g.layers)
  {
    forall k | 0 <= k < |g.layers|
      ensures g.layers[k] in g.info && Ranks(g)[k] == g.info[g.layers[k]].Rank()
    {
      assert g.layers[k] in g.layers;
    }
  }

  lemma {:induction false} QueueFrom(g: Net, s: seq<LayerId>, k: nat, before: seq<LayerId>)
    requires k < |s|
    ensures before + QueueOf(g, s[k..]) == (if Queued(g, s[k]) then before + [s[k]] else before) + QueueOf(g, s[k + 1..])
  {
    assert s[k..][1..] == s[k + 1..];
  }

  lemma {:induction false} ExecutionDataNext(g: Net, s: seq<LayerId>, l: LayerId)
    ensures ExecutionDataOf(g, s + [l]) == ExecutionDataOf(g, s) + if HasExecutionData(g, l) then [l] else []
  {
    if s == [] {
      assert [l][1..] == [];
    } else {
      assert (s + [l])[1..] == s[1..] + [l];
      ExecutionDataNext(g, s[1..], l);
    }
  }

  lemma {:induction false} DataUpTo(g: Net, k: nat)
    requires k < |g.layers|
    ensures ExecutionDataOf(g, g.layers[..k + 1]) ==
      ExecutionDataOf(g, g.layers[..k]) + if HasExecutionData(g, g.layers[k]) then [g.layers[k]] else []
  {
    assert g.layers[..k + 1] == g.layers[..k] + [g.layers[k]];
    ExecutionDataNext(g, g.layers[..k], g.layers[k]);
  }

  lemma {:induction false} QueueNext(g: Net, s: seq<LayerId>, l: LayerId)
    ensures QueueOf(g, s + [l]) == QueueOf(g, s) + if Queued(g, l) then [l] else []
  {
    if s == [] {
      assert [l][1..] == [];
    } else {
      assert (s + [l])[1..] == s[1..] + [l];
      QueueNext(g, s[1..], l);
    }
  }

  lemma {:induction false} QueueUpTo(g: Net, k: nat)
    requires k < |g.layers|
    ensures QueueOf(g, g.layers[..k + 1]) == QueueOf(g, g.layers[..k]) + if Queued(g, g.layers[k]) then [g.layers[k]] else []
  {
    assert g.layers[..k + 1] == g.layers[..k] + [g.layers[k]];
    QueueNext(g, g.layers[..k], g.layers[k]);
  }

  /** In the order of the layer list. */
  ghost predicate InListOrder(g: Net, s: seq<LayerId>) {
    forall m, n :: 0 <= m < n < |s| ==> Pos(g, s[m]) < Pos(g, s[n])
  }

  ghost predicate ListedBelow(g: Net, s: seq<LayerId>, k: nat) {
    InListOrder(g, s) && forall m :: 0 <= m < |s| ==> Pos(g, s[m]) < k
  }

  lemma {:induction false} ListedNext(g: Net, s: seq<LayerId>, l: LayerId, k: nat, next: nat)
    requires ListedBelow(g, s, k) && Pos(g, l) == k && next == k + 1
    ensures ListedBelow(g, s, next) && ListedBelow(g, s + [l], next)
  {
  }

  lemma {:induction false} QueueInOrder(g: Net, k: nat)
    requires g.Listed() && k <= |g.layers|
    ensures ListedBelow(g, QueueOf(g, g.layers[..k]), k)
    ensures forall l :: l in QueueOf(g, g.layers[..k]) <==> l in g.info && Pos(g, l) < k && Queued(g, l)
  {
    if k > 0 {
      var j: nat := k - 1;
      QueueInOrder(g, j);
      QueueUpTo(g, j);
      AtPosition(g, j);
      ListedNext(g, QueueOf(g, g.layers[..j]), g.layers[j], j, k);
    } else {
      assert g.layers[..k] == [];
    }
  }

  lemma {:induction false} DataInOrder(g: Net, k: nat)
    requires g.Listed() && k <= |g.layers|
    ensures ListedBelow(g, ExecutionDataOf(g, g.layers[..k]), k)
    ensures forall l :: l in ExecutionDataOf(g, g.layers[..k]) <==> l in g.info && Pos(g, l) < k && HasExecutionData(g, l)
  {
    if k > 0 {
      var j: nat := k - 1;
      DataInOrder(g, j);
      DataUpTo(g, j);
      AtPosition(g, j);
      ListedNext(g, ExecutionDataOf(g, g.layers[..j]), g.layers[j], j, k);
    } else {
      assert g.layers[..k] == [];
    }
  }

  lemma {:induction false} AllPositions(g: Net)
    requires g.Listed()
    ensures forall l :: l in g.info ==> Pos(g, l) < |g.layers|
  {
    forall l | l in g.info
      ensures Pos(g, l) < |g.layers|
    {
      assert l in g.layers;
    }
  }

  lemma {:induction false} QueueIsRight(g: Net)
    requires g.Listed()
    ensures InListOrder(g, QueueOf(g, g.layers))
    ensures forall l :: l in QueueOf(g, g.layers) <==>
      l in g.info && !g.info[l].kind.Input? && !g.info[l].kind.Output? && !g.info[l].kind.Constant?
  {
    QueueInOrder(g, |g.layers|);
    assert g.layers[..|g.layers|] == g.layers;
    AllPositions(g);
  }

  lemma {:induction false} DataIsRight(g: Net)
    requires g.Listed()
    ensures InListOrder(g, ExecutionDataOf(g, g.layers))
    ensures forall l :: l in ExecutionDataOf(g, g.layers) <==>
      l in g.info && !g.info[l].kind.Input? && !g.info[l].kind.MemImport? && !g.info[l].kind.Constant?
  {
    DataInOrder(g, |g.layers|);
    assert g.layers[..|g.layers|] == g.layers;
    AllPositions(g);
  }

  /** The constructor's queue for an asynchronous network. */
  method BuildQueue(g: Net) returns (queue: seq<LayerId>)
    requires g.Valid() && Partitioned(g)
    ensures queue == QueueOf(g, g.layers) && InListOrder(g, queue)
    ensures forall l :: l in queue <==> l in g.info && !g.info[l].kind.Input? && !g.info[l].kind.Output? && !g.info[l].kind.Constant?
  {
    QueueIsRight(g);
    queue := [];
    var k := 0;
    while k < |g.layers|
      invariant k <= |g.layers| && queue + QueueOf(g, g.layers[k..]) == QueueOf(g, g.layers)
    {
      var l := g.layers[k];
      assert l in g.layers;
      QueueFrom(g, g.layers, k, queue);
      if !g.info[l].kind.Input? && !g.info[l].kind.Output? && !g.info[l].kind.Constant? {
        queue := queue + [l];
      }
      k := k + 1;
    }
  }

  /** What CreateWorkingMemHandle has decided so far for the output slots of one layer. */
  datatype Decision = Decision(managed: bool, toOutput: bool)

  /** After n connections to Output layers: the first makes the memory the user's if outputs are exported, a second one
      undoes that. */
  function DecisionAfter(opts: Options, initially: bool, n: nat): Decision {
    Decision(if n == 0 then initially else if n == 1 then !opts.exportOutputs else true, n > 0)
  }

  /** How many of the readers are Output layers. */
  function OutputsAmong(g: Net, s: seq<InSlot>): nat {
    if s == [] then 0
    else
      var i := s[|s| - 1];
      OutputsAmong(g, s[..|s| - 1]) + if i.layer in g.info && g.info[i.layer].kind.Output? then 1 else 0
  }

  /** How many connections lead from the first j output slots of l to Output layers. */
  function OutputsUpTo(g: Net, l: LayerId, j: nat): nat {
    if j == 0 then 0 else OutputsUpTo(g, l, j - 1) + OutputsAmong(g, g.Sinks(OutSlot(l, j - 1)))
  }

  /** The connections from the first j output slots of l to Output layers. */
  ghost function ToOutputs(g: Net, l: LayerId, j: nat): set<InSlot> {
    set i | i in g.source && g.source[i].layer == l && g.source[i].index < j && i.layer in g.info && g.info[i.layer].kind.Output?
  }

  lemma {:induction false} AmongIsSize(g: Net, s: seq<InSlot>)
    requires NoDup(s)
    ensures OutputsAmong(g, s) == |set i | i in s && i.layer in g.info && g.info[i.layer].kind.Output?|
  {
    var a := set i | i in s && i.layer in g.info && g.info[i.layer].kind.Output?;
    if s == [] {
      assert a == {};
    } else {
      var t, x := s[..|s| - 1], s[|s| - 1];
      PrefixNoDup(s);
      AmongIsSize(g, t);
      var b := set i | i in t && i.layer in g.info && g.info[i.layer].kind.Output?;
      assert forall i :: i in s <==> i in t || i == x;
      assert a == if x.layer in g.info && g.info[x.layer].kind.Output? then b + {x} else b;
    }
  }

  lemma {:induction false} OutputsUpToIsSize(g: Net, l: LayerId, j: nat)
    requires g.Linked()
    ensures OutputsUpTo(g, l, j) == |ToOutputs(g, l, j)|
  {
    if j == 0 {
      assert ToOutputs(g, l, j) == {};
    } else {
      var k: nat := j - 1;
      var o := OutSlot(l, k);
      OutputsUpToIsSize(g, l, k);
      assert g.SinksOK(o);
      AmongIsSize(g, g.Sinks(o));
      var a := set i | i in g.Sinks(o) && i.layer in g.info && g.info[i.layer].kind.Output?;
      forall i
        ensures i in ToOutputs(g, l, j) <==> i in ToOutputs(g, l, k) || i in a
        ensures !(i in ToOutputs(g, l, k) && i in a)
      {
        assert g.SourceOK(i);
        assert i in g.source && g.source[i].layer == l && g.source[i].index == k ==> g.source[i] == o;
      }
      assert ToOutputs(g, l, j) == ToOutputs(g, l, k) + a && ToOutputs(g, l, k) !! a;
    }
  }

  /** What becomes of slot o's handle depends on the connections to Outputs from its layer's slots up to o: with none the memory
      is the user's only if the layer's values are imported, with one if outputs are exported, with several never. */
  ghost predicate ManagedByReaders(g: Net, opts: Options, o: OutSlot) {
    o.layer in g.info && o.index < g.info[o.layer].numOut && !g.info[o.layer].kind.Constant?
    && var n := |ToOutputs(g, o.layer, o.index + 1)|;
       if n == 0 then !(opts.importInputs && (g.info[o.layer].kind.Input? || g.info[o.layer].kind.MemImport?))
       else if n == 1 then !opts.exportOutputs
       else true
  }

  /** The slots of l below j whose handles are managed, in order. */
  ghost predicate SlotsTo(g: Net, opts: Options, s: seq<OutSlot>, l: LayerId, j: nat) {
    && (forall m, n :: 0 <= m < n < |s| ==> s[m].index < s[n].index)
    && (forall o :: o in s <==> o.layer == l && o.index < j && ManagedByReaders(g, opts, o))
  }

  lemma {:induction false} SlotsInOrder(g: Net, opts: Options, l: LayerId, j: nat)
    requires g.Linked() && l in g.info && !g.info[l].kind.Constant? && j <= g.info[l].numOut
    ensures SlotsTo(g, opts, ManagedSlots(g, opts, l, j), l, j)
  {
    if j > 0 {
      var k: nat := j - 1;
      SlotsInOrder(g, opts, l, k);
      OutputsUpToIsSize(g, l, j);
      SlotsNext(g, opts, ManagedSlots(g, opts, l, k), l, k, j);
    }
  }

  lemma {:induction false} SlotsNext(g: Net, opts: Options, s: seq<OutSlot>, l: LayerId, k: nat, j: nat)
    requires SlotsTo(g, opts, s, l, k) && j == k + 1
    ensures ManagedByReaders(g, opts, OutSlot(l, k)) ==> SlotsTo(g, opts, s + [OutSlot(l, k)], l, j)
    ensures !ManagedByReaders(g, opts, OutSlot(l, k)) ==> SlotsTo(g, opts, s, l, j)
  {
    assert forall m :: 0 <= m < |s| ==> s[m] in s;
  }

  lemma {:induction false} HandlesInOrder(g: Net, opts: Options, k: nat)
    requires g.Valid() && k <= |g.layers|
    ensures ManagedTo(g, opts, ManagedHandlesUpTo(g, opts, k), k)
  {
    if k > 0 {
      var j: nat := k - 1;
      HandlesInOrder(g, opts, j);
      HandlesUnfold(g, opts, j, k);
      LayerInOrder(g, opts, ManagedHandlesUpTo(g, opts, j), ManagedHandlesUpTo(g, opts, k), j, k);
    }
  }

  lemma {:induction false} HandlesUnfold(g: Net, opts: Options, j: nat, k: nat)
    requires k == j + 1 <= |g.layers|
    ensures ManagedHandlesUpTo(g, opts, k) == ManagedHandlesUpTo(g, opts, j) + ManagedOfLayer(g, opts, g.layers[j])
  {
  }

  /** The slots with managed handles of the layers before position k, in order. */
  ghost predicate ManagedTo(g: Net, opts: Options, s: seq<OutSlot>, k: nat) {
    OrderedTo(g, s, k) && forall o :: o in s <==> ManagedByReaders(g, opts, o) && Pos(g, o.layer) < k
  }

  lemma {:induction false} LayerInOrder(g: Net, opts: Options, s: seq<OutSlot>, s': seq<OutSlot>, j: nat, k: nat)
    requires g.Valid() && ManagedTo(g, opts, s, j) && k == j + 1 <= |g.layers| && s' == s + ManagedOfLayer(g, opts, g.layers[j])
    ensures ManagedTo(g, opts, s', k)
  {
    var l := g.layers[j];
    AtPosition(g, j);
    if !g.info[l].kind.Constant? {
      SlotsInOrder(g, opts, l, g.info[l].numOut);
    }
    SlotsBehind(g, opts, s, ManagedOfLayer(g, opts, l), l, j, k);
  }

  /** The slots of the layer at position j, behind those of the layers before it. */
  lemma {:induction false} SlotsBehind(g: Net, opts: Options, s: seq<OutSlot>, t: seq<OutSlot>, l: LayerId, j: nat, k: nat)
    requires ManagedTo(g, opts, s, j) && k == j + 1 && l in g.info && Pos(g, l) == j && forall m :: m in g.info && Pos(g, m) == j ==> m == l
    requires if g.info[l].kind.Constant? then t == [] else SlotsTo(g, opts, t, l, g.info[l].numOut)
    ensures ManagedTo(g, opts, s + t, k)
  {
    forall o
      ensures o in s + t <==> ManagedByReaders(g, opts, o) && Pos(g, o.layer) < k
    {
      assert o in s + t <==> o in s || o in t;
    }
    BehindInOrder(g, s, t, l, j, k);
  }

  lemma {:induction false} BehindInOrder(g: Net, s: seq<OutSlot>, t: seq<OutSlot>, l: LayerId, j: nat, k: nat)
    requires OrderedTo(g, s, j) && k == j + 1 && Pos(g, l) == j && forall o :: o in t ==> o.layer == l
    requires forall m, n :: 0 <= m < n < |t| ==> t[m].index < t[n].index
    ensures OrderedTo(g, s + t, k)
  {
    assert forall m :: 0 <= m < |t| ==> t[m] in t;
  }

  /** Whether the memory of l's slots is managed when none of them leads to an Output. */
  function InitiallyManaged(g: Net, opts: Options, l: LayerId): bool {
    !(opts.importInputs && l in g.info && (g.info[l].kind.Input? || g.info[l].kind.MemImport?))
  }

  /** Output slot o gets a managed tensor handle. */
  predicate HandleManaged(g: Net, opts: Options, o: OutSlot) {
    DecisionAfter(opts, InitiallyManaged(g, opts, o.layer), OutputsUpTo(g, o.layer, o.index + 1)).managed
  }

  /** The slots of l below j with managed handles, in order. */
  function ManagedSlots(g: Net, opts: Options, l: LayerId, j: nat): seq<OutSlot> {
    if j == 0 then []
    else ManagedSlots(g, opts, l, j - 1) + if HandleManaged(g, opts, OutSlot(l, j - 1)) then [OutSlot(l, j - 1)] else []
  }

  function ManagedOfLayer(g: Net, opts: Options, l: LayerId): seq<OutSlot> {
    if l in g.info && !g.info[l].kind.Constant? then ManagedSlots(g, opts, l, g.info[l].numOut) else []
  }

  /** The slots with managed handles of the first k layers, Constants aside. */
  function ManagedHandlesUpTo(g: Net, opts: Options, k: nat): seq<OutSlot> {
    if k == 0 || k > |g.layers| then [] else ManagedHandlesUpTo(g, opts, k - 1) + ManagedOfLayer(g, opts, g.layers[k - 1])
  }

  /** The decision about slot j settles whether it is the next in the list. */
  lemma {:induction false} ManagedNext(g: Net, opts: Options, l: LayerId, j: nat, d: Decision)
    requires d == DecisionAfter(opts, InitiallyManaged(g, opts, l), OutputsUpTo(g, l, j) + OutputsAmong(g, g.Sinks(OutSlot(l, j))))
    ensures d == DecisionAfter(opts, InitiallyManaged(g, opts, l), OutputsUpTo(g, l, j + 1))
    ensures ManagedSlots(g, opts, l, j + 1) == ManagedSlots(g, opts, l, j) + if d.managed then [OutSlot(l, j)] else []
  {
  }

  method Decide(g: Net, opts: Options, ghost initially: bool, ghost m: nat, d: Decision, s: seq<InSlot>) returns (e: Decision)
    requires (forall i :: i in s ==> i.layer in g.info) && d == DecisionAfter(opts, initially, m)
    ensures e == DecisionAfter(opts, initially, m + OutputsAmong(g, s))
  {
    e := d;
    var n := 0;
    while n < |s|
      invariant n <= |s| && e == DecisionAfter(opts, initially, m + OutputsAmong(g, s[..n]))
    {
      assert s[n] in s && s[..n + 1][..n] == s[..n];
      if g.info[s[n].layer].kind.Output? {
        e := if !e.toOutput then Decision(!opts.exportOutputs, true) else Decision(true, true);
      }
      n := n + 1;
    }
    assert s[..n] == s;
  }

  /** The slots of one layer that get managed tensor handles; the others are allocated by the user. */
  method ManagedHandles(g: Net, opts: Options, l: LayerId) returns (managed: seq<OutSlot>)
    requires g.Valid() && l in g.info && !g.info[l].kind.Constant?
    ensures managed == ManagedSlots(g, opts, l, g.info[l].numOut)
  {
    managed := [];
    ghost var initially := InitiallyManaged(g, opts, l);
    var d := Decision(!(g.info[l].kind.Input? || g.info[l].kind.MemImport?) || !opts.importInputs, false);
    var j := 0;
    while j < g.info[l].numOut
      invariant j <= g.info[l].numOut
      invariant d == DecisionAfter(opts, initially, OutputsUpTo(g, l, j)) && managed == ManagedSlots(g, opts, l, j)
    {
      var o := OutSlot(l, j);
      ReadersListed(g, o);
      d := Decide(g, opts, initially, OutputsUpTo(g, l, j), d, g.Sinks(o));
      ManagedNext(g, opts, l, j, d);
      if d.managed {
        managed := managed + [o];
      }
      j := j + 1;
    }
  }

  lemma {:induction false} ReadersListed(g: Net, o: OutSlot)
    requires g.Valid()
    ensures forall i :: i in g.Sinks(o) ==> i.layer in g.info
  {
    assert g.SinksOK(o);
    forall i | i in g.Sinks(o)
      ensures i.layer in g.info
    {
      assert g.SourceOK(i);
    }
  }

  /** The layer at position k. */
  method HandleLayer(g: Net, opts: Options, k: nat, ghost next: nat, managed: seq<OutSlot>, data: seq<LayerId>)
    returns (managed': seq<OutSlot>, data': seq<LayerId>)
    requires g.Valid() && k < |g.layers| && next == k + 1 && managed == ManagedHandlesUpTo(g, opts, k) && data == ExecutionDataOf(g, g.layers[..k])
    ensures managed' == ManagedHandlesUpTo(g, opts, next) && data' == ExecutionDataOf(g, g.layers[..next])
  {
    managed', data' := managed, data;
    var l := g.layers[k];
    assert l in g.layers;
    DataUpTo(g, k);
    if !g.info[l].kind.Constant? {
      var slots := ManagedHandles(g, opts, l);
      managed' := managed + slots;
      if !g.info[l].kind.Input? && !g.info[l].kind.MemImport? {
        data' := data + [l];
      }
    }
  }

  /** LoadedNetwork::CreateWorkingMemHandle, as far as indices go: the slots with managed handles and the layers with
      execution data, each in the order of the list. */
  method CreateWorkingMemHandle(g: Net, opts: Options) returns (managed: seq<OutSlot>, data: seq<LayerId>)
    requires g.Valid() && Partitioned(g)
    ensures data == ExecutionDataOf(g, g.layers) && InListOrder(g, data)
    ensures forall l :: l in data <==> l in g.info && !g.info[l].kind.Input? && !g.info[l].kind.MemImport? && !g.info[l].kind.Constant?
    ensures managed == ManagedHandlesUpTo(g, opts, |g.layers|) && InOrder(g, managed)
    ensures forall o :: o in managed <==> ManagedByReaders(g, opts, o)
  {
    DataIsRight(g);
    HandlesInOrder(g, opts, |g.layers|);
    AllPositions(g);
    managed, data := [], [];
    var k: nat := 0;
    while k < |g.layers|
      invariant k <= |g.layers| && data == ExecutionDataOf(g, g.layers[..k])
      invariant managed == ManagedHandlesUpTo(g, opts, k)
    {
      var next := k + 1;
      managed, data := HandleLayer(g, opts, k, next, managed, data);
      k := next;
    }
    assert g.layers[..k] == g.layers;
  }

  /** The queue that the constructor builds and the execution data that CreateWorkingMemHandle lists for the same sorted
      graph have the same indices exactly when no layer is a MemImport layer. */
  lemma {:induction false} WorkloadsMatchData(g: Net, queue: seq<LayerId>, data: seq<LayerId>)
    requires g.Valid() && Partitioned(g) && queue == QueueOf(g, g.layers) && data == ExecutionDataOf(g, g.layers)
    ensures Agree(queue, data) <==> forall l :: l in g.info ==> !g.info[l].kind.MemImport?
  {
    SortedEndsInOutputs(g);
    AgreeExactly(g, g.layers);
    assert forall l :: l in g.info <==> l in g.layers;
  }

  /** An Input, imported on its way to an Output. */
  function Imported(): Net {
    Net([0, 1, 2],
        map[0 := LayerInfo(Input, 0, 1, 0, ""), 1 := LayerInfo(MemImport, 1, 1, 0, ""), 2 := LayerInfo(Output, 1, 0, 0, "")],
        map[InSlot(1, 0) := OutSlot(0, 0), InSlot(2, 0) := OutSlot(1, 0)],
        map[OutSlot(0, 0) := [InSlot(1, 0)], OutSlot(1, 0) := [InSlot(2, 0)]],
        map[OutSlot(0, 0) := [Undefined], OutSlot(1, 0) := [Undefined]],
        map[])
  }

  lemma {:induction false} ImportedIsListed()
    ensures Imported().Listed()
    ensures forall k: nat :: k < 3 ==> Pos(Imported(), k) == k
  {
    FromZero(Imported().layers);
  }

  lemma {:induction false} ImportedIsLinked()
    ensures Imported().Linked()
  {
    var g := Imported();
    forall i
      ensures g.SourceOK(i)
    {
      assert i in g.source ==> i == InSlot(1, 0) || i == InSlot(2, 0);
    }
    forall o
      ensures g.SinksOK(o)
    {
      NoDupIntro(g.Sinks(o));
    }
  }

  lemma {:induction false} ImportedIsSorted()
    ensures Imported().Valid() && Sorted(Imported())
  {
    var g := Imported();
    ImportedIsListed();
    ImportedIsLinked();
    assert Ranks(g) == [0, 1, 2];
    forall i | i in g.source
      ensures Pos(g, g.source[i].layer) < Pos(g, i.layer)
    {
      assert i == InSlot(1, 0) || i == InSlot(2, 0);
    }
  }

  /** There the MemImport layer's workload gets the execution data of the Output. */
  lemma {:induction false} ImportShiftsData()
    ensures QueueOf(Imported(), [0, 1, 2]) == [1] && ExecutionDataOf(Imported(), [0, 1, 2]) == [2]
  {
    var g := Imported();
    assert [0, 1, 2][1..] == [1, 2] && [1, 2][1..] == [2] && [2][1..] == [];
    assert QueueOf(g, [2]) == [] && ExecutionDataOf(g, [2]) == [2];
    assert QueueOf(g, [1, 2]) == [1] && ExecutionDataOf(g, [1, 2]) == [2];
  }
}
