/**
  The priorities that order the layer list: 0 for Inputs, the largest for Outputs, and for a middle
  layer one more than the largest priority among the layers it reads.
 */
module Priorities {
  import opened Unsigned
  import opened Sequences
  import opened NetGraph
  import opened Evaluation
  import opened Ordering
  import opened LayerEdits

  /** std::numeric_limits<unsigned int>::max(). */
  const MAX_PRIORITY: nat := UINT - 1

  predicate IsMiddle(g: Net, l: LayerId) {
    l in g.info && g.info[l].Rank() == 1
  }

  /** The priority of l as far as it is known; 0 stands for unknown in middle layers. */
  function PrioOf(g: Net, prio: map<LayerId, nat>, l: LayerId): nat {
    if l !in g.info || g.info[l].kind.Input? then 0
    else if g.info[l].kind.Output? then MAX_PRIORITY
    else if l in prio then prio[l]
    else 0
  }

  predicate Done(g: Net, prio: map<LayerId, nat>, l: LayerId) {
    IsMiddle(g, l) ==> PrioOf(g, prio, l) != 0
  }

  function Max(a: nat, b: nat): nat {
    if a < b then b else a
  }

  /** The largest priority among the layers feeding the first k input slots of l. */
  function ParentMax(g: Net, prio: map<LayerId, nat>, l: LayerId, k: nat): nat {
    if k == 0 then 0
    else if InSlot(l, k - 1) in g.source then
      Max(ParentMax(g, prio, l, k - 1), PrioOf(g, prio, g.source[InSlot(l, k - 1)].layer))
    else ParentMax(g, prio, l, k - 1)
  }

  /** l reads an output slot of p. */
  ghost predicate IsParent(g: Net, p: LayerId, l: LayerId) {
    exists i :: i in g.source && i.layer == l && g.source[i].layer == p
  }

  /** A known priority of a middle layer is one more than those of its parents, which are known. */
  ghost predicate PriorityOK(g: Net, prio: map<LayerId, nat>, l: LayerId) {
    IsMiddle(g, l) && PrioOf(g, prio, l) != 0 ==>
      && (forall i :: i in g.source && i.layer == l ==> Done(g, prio, g.source[i].layer))
      && PrioOf(g, prio, l) == 1 + ParentMax(g, prio, l, g.info[l].numIn)
  }

  ghost predicate PrioritiesOK(g: Net, prio: map<LayerId, nat>) {
    forall l :: PriorityOK(g, prio, l)
  }

  /** Known priorities stay as they are. */
  ghost predicate Extends(g: Net, prio: map<LayerId, nat>, prio': map<LayerId, nat>) {
    forall l :: PrioOf(g, prio, l) != 0 ==> PrioOf(g, prio', l) == PrioOf(g, prio, l)
  }

  lemma {:induction false} ParentIsNoOutput(g: Net, i: InSlot)
    requires g.Valid() && i in g.source
    ensures g.source[i].layer in g.info && !g.info[g.source[i].layer].kind.Output?
    ensures i.layer in g.info && !g.info[i.layer].kind.Input? && !g.info[i.layer].kind.Constant?
    ensures i.index < g.info[i.layer].numIn
  {
    assert g.SourceOK(i);
  }

  lemma {:induction false} ParentMaxStays(g: Net, prio: map<LayerId, nat>, prio': map<LayerId, nat>, l: LayerId, k: nat)
    requires g.Valid() && Extends(g, prio, prio')
    requires ParentsDone(g, prio, l, k)
    ensures ParentMax(g, prio', l, k) == ParentMax(g, prio, l, k)
  {
    if k > 0 {
      ParentMaxStays(g, prio, prio', l, k - 1);
      var i := InSlot(l, k - 1);
      if i in g.source {
        ParentIsNoOutput(g, i);
        assert Done(g, prio, g.source[i].layer);
      }
    }
  }

  lemma {:induction false} ParentMaxBounds(g: Net, prio: map<LayerId, nat>, i: InSlot, k: nat)
    requires i in g.source && i.index < k
    ensures PrioOf(g, prio, g.source[i].layer) <= ParentMax(g, prio, i.layer, k)
  {
    if i.index < k - 1 {
      ParentMaxBounds(g, prio, i, k - 1);
    }
  }

  lemma {:induction false} ParentMaxAttained(g: Net, prio: map<LayerId, nat>, l: LayerId, k: nat) returns (i: InSlot)
    requires ParentMax(g, prio, l, k) > 0
    ensures i in g.source && i.layer == l && i.index < k
    ensures PrioOf(g, prio, g.source[i].layer) == ParentMax(g, prio, l, k)
  {
    if InSlot(l, k - 1) in g.source && ParentMax(g, prio, l, k - 1) <= PrioOf(g, prio, g.source[InSlot(l, k - 1)].layer) {
      i := InSlot(l, k - 1);
    } else {
      i := ParentMaxAttained(g, prio, l, k - 1);
    }
  }

  /** The layers feeding the first k input slots of l have known priorities. */
  ghost predicate ParentsDone(g: Net, prio: map<LayerId, nat>, l: LayerId, k: nat) {
    forall i :: i in g.source && i.layer == l && i.index < k ==> Done(g, prio, g.source[i].layer)
  }

  /** Recording the priority of one more middle layer. */
  lemma {:induction false} RecordPriority(g: Net, prio: map<LayerId, nat>, l: LayerId)
    requires g.Valid() && PrioritiesOK(g, prio) && IsMiddle(g, l) && PrioOf(g, prio, l) == 0
    requires ParentsDone(g, prio, l, g.info[l].numIn)
    ensures var prio' := prio[l := 1 + ParentMax(g, prio, l, g.info[l].numIn)];
      PrioritiesOK(g, prio') && Extends(g, prio, prio') && Done(g, prio', l)
  {
    var prio' := prio[l := 1 + ParentMax(g, prio, l, g.info[l].numIn)];
    forall i | i in g.source && i.layer == l
      ensures Done(g, prio, g.source[i].layer)
    {
      ParentIsNoOutput(g, i);
    }
    forall m
      ensures PriorityOK(g, prio', m)
    {
      if IsMiddle(g, m) && PrioOf(g, prio', m) != 0 {
        assert PriorityOK(g, prio, m);
        assert ParentsDone(g, prio, m, g.info[m].numIn);
        ParentMaxStays(g, prio, prio', m, g.info[m].numIn);
      }
    }
  }

  /** Distinct layers have the priorities 1 to PrioOf(l), so there are at least that many layers. */
  lemma {:induction false} PriorityChain(g: Net, prio: map<LayerId, nat>, l: LayerId) returns (s: set<LayerId>)
    requires g.Valid() && PrioritiesOK(g, prio) && IsMiddle(g, l)
    ensures |s| == PrioOf(g, prio, l) && s <= g.info.Keys
    ensures forall m :: m in s ==> PrioOf(g, prio, m) <= PrioOf(g, prio, l)
    decreases PrioOf(g, prio, l)
  {
    if PrioOf(g, prio, l) == 0 {
      return {};
    }
    assert PriorityOK(g, prio, l);
    var top := ParentMax(g, prio, l, g.info[l].numIn);
    if top == 0 {
      return {l};
    }
    var i := ParentMaxAttained(g, prio, l, g.info[l].numIn);
    ParentIsNoOutput(g, i);
    s := PriorityChain(g, prio, g.source[i].layer);
    s := s + {l};
  }

  lemma {:induction false} PriorityAtMost(g: Net, prio: map<LayerId, nat>, l: LayerId)
    requires g.Valid() && PrioritiesOK(g, prio) && IsMiddle(g, l)
    ensures PrioOf(g, prio, l) <= |g.info|
  {
    var s := PriorityChain(g, prio, l);
    SubsetSize(s, g.info.Keys);
  }

  /** What is written into an Input or Output layer does not matter. */
  lemma {:induction false} RecordBound(g: Net, prio: map<LayerId, nat>, l: LayerId, v: nat)
    requires PrioritiesOK(g, prio) && l in g.info && !IsMiddle(g, l)
    ensures PrioritiesOK(g, prio[l := v]) && Extends(g, prio, prio[l := v])
    ensures forall m :: PrioOf(g, prio[l := v], m) == PrioOf(g, prio, m)
  {
    var prio' := prio[l := v];
    forall m
      ensures PriorityOK(g, prio', m)
    {
      assert PriorityOK(g, prio, m);
      if m in g.info {
        ParentMaxSame(g, prio, prio', m, g.info[m].numIn);
      }
    }
  }

  lemma {:induction false} ParentMaxSame(g: Net, prio: map<LayerId, nat>, prio': map<LayerId, nat>, l: LayerId, k: nat)
    requires forall m :: PrioOf(g, prio', m) == PrioOf(g, prio, m)
    ensures ParentMax(g, prio', l, k) == ParentMax(g, prio, l, k)
  {
    if k > 0 {
      ParentMaxSame(g, prio, prio', l, k - 1);
    }
  }

  lemma {:induction false} ParentsStayDone(g: Net, prio: map<LayerId, nat>, prio': map<LayerId, nat>, l: LayerId, k: nat)
    requires ParentsDone(g, prio, l, k) && Extends(g, prio, prio')
    ensures ParentsDone(g, prio', l, k)
  {
    forall i | i in g.source && i.layer == l && i.index < k
      ensures Done(g, prio', g.source[i].layer)
    {
      assert Done(g, prio, g.source[i].layer);
    }
  }

  /** One more parent visited. */
  lemma {:induction false} ParentVisited(g: Net, prio: map<LayerId, nat>, prio': map<LayerId, nat>, l: LayerId, k: nat)
    requires g.Valid() && ParentsDone(g, prio, l, k) && Extends(g, prio, prio')
    requires InSlot(l, k) in g.source ==> Done(g, prio', g.source[InSlot(l, k)].layer)
    ensures ParentsDone(g, prio', l, k + 1)
    ensures ParentMax(g, prio', l, k + 1) ==
      if InSlot(l, k) in g.source then Max(ParentMax(g, prio, l, k), PrioOf(g, prio', g.source[InSlot(l, k)].layer))
      else ParentMax(g, prio, l, k)
  {
    ParentMaxStays(g, prio, prio', l, k);
    ParentsStayDone(g, prio, prio', l, k);
  }

  lemma {:induction false} ExtendsTransitive(g: Net, p: map<LayerId, nat>, q: map<LayerId, nat>, r: map<LayerId, nat>)
    requires Extends(g, p, q) && Extends(g, q, r)
    ensures Extends(g, p, r)
  {
  }

  /** Priorities run out only when there are too many layers. */
  lemma {:induction false} TooDeep(g: Net, prio: map<LayerId, nat>, l: LayerId)
    requires g.Valid() && PrioritiesOK(g, prio) && l in g.info
    requires ParentMax(g, prio, l, g.info[l].numIn) >= MAX_PRIORITY
    ensures |g.info| >= MAX_PRIORITY
  {
    var i := ParentMaxAttained(g, prio, l, g.info[l].numIn);
    ParentIsNoOutput(g, i);
    PriorityAtMost(g, prio, g.source[i].layer);
  }

  /** Each layer of the walk is read by the one before it. */
  ghost predicate Walk(g: Net, c: seq<LayerId>) {
    forall j :: 0 <= j < |c| - 1 ==> IsParent(g, c[j + 1], c[j])
  }

  ghost predicate IsCycle(g: Net, c: seq<LayerId>) {
    c != [] && Walk(g, c) && IsParent(g, c[0], c[|c| - 1])
  }

  lemma {:induction false} WalkDescends(g: Net, rank: map<LayerId, nat>, c: seq<LayerId>, k: nat)
    requires Ranked(g, rank) && Walk(g, c) && k < |c| && c[0] in rank
    ensures c[k] in rank && rank[c[k]] + k <= rank[c[0]]
  {
    if k > 0 {
      WalkDescends(g, rank, c, k - 1);
      assert IsParent(g, c[k - 1 + 1], c[k - 1]);
    }
  }

  lemma {:induction false} CycleRefutesRank(g: Net, c: seq<LayerId>)
    requires IsCycle(g, c)
    ensures !Acyclic(g)
  {
    if Acyclic(g) {
      var rank :| Ranked(g, rank);
      WalkDescends(g, rank, c, |c| - 1);
    }
  }

  ghost predicate AllDone(g: Net, prio: map<LayerId, nat>) {
    PrioritiesOK(g, prio) && forall l :: l in g.info ==> Done(g, prio, l)
  }

  /** With all priorities known, edges climb. */
  lemma {:induction false} PrioritiesClimb(g: Net, prio: map<LayerId, nat>, i: InSlot)
    requires g.Valid() && AllDone(g, prio) && |g.info| < MAX_PRIORITY && i in g.source
    ensures PrioOf(g, prio, g.source[i].layer) < PrioOf(g, prio, i.layer)
  {
    ParentIsNoOutput(g, i);
    var p := g.source[i].layer;
    if IsMiddle(g, i.layer) {
      assert PriorityOK(g, prio, i.layer);
      ParentMaxBounds(g, prio, i, g.info[i.layer].numIn);
    } else if IsMiddle(g, p) {
      PriorityAtMost(g, prio, p);
    }
  }

  lemma {:induction false} PrioritiesRank(g: Net, prio: map<LayerId, nat>)
    requires g.Valid() && AllDone(g, prio) && |g.info| < MAX_PRIORITY
    ensures Acyclic(g)
  {
    var rank := map l | l in g.info :: PrioOf(g, prio, l);
    forall i | i in g.source
      ensures i.layer in rank && g.source[i].layer in rank && rank[g.source[i].layer] < rank[i.layer]
    {
      ParentIsNoOutput(g, i);
      PrioritiesClimb(g, prio, i);
    }
    assert Ranked(g, rank);
  }

  /** A path of middle layers, in the direction of the edges, that ends in l. */
  ghost predicate MiddlePath(g: Net, p: seq<LayerId>, l: LayerId) {
    && p != [] && p[|p| - 1] == l
    && (forall j :: 0 <= j < |p| ==> IsMiddle(g, p[j]))
    && (forall j :: 0 <= j < |p| - 1 ==> IsParent(g, p[j], p[j + 1]))
  }

  /** No path into l is longer than l's priority ... */
  lemma {:induction false} PathAtMostPriority(g: Net, prio: map<LayerId, nat>, p: seq<LayerId>, l: LayerId)
    requires g.Valid() && AllDone(g, prio) && MiddlePath(g, p, l)
    ensures |p| <= PrioOf(g, prio, l)
  {
    assert IsMiddle(g, p[|p| - 1]) && Done(g, prio, l);
    if |p| > 1 {
      var q := p[..|p| - 1];
      assert IsParent(g, p[|p| - 2], p[|p| - 2 + 1]);
      PathAtMostPriority(g, prio, q, q[|q| - 1]);
      var i :| i in g.source && i.layer == l && g.source[i].layer == q[|q| - 1];
      ParentIsNoOutput(g, i);
      assert PriorityOK(g, prio, l);
      ParentMaxBounds(g, prio, i, g.info[l].numIn);
    }
  }

  /** ... and one is as long: the priority of a middle layer is its longest-path depth. */
  lemma {:induction false} LongestPath(g: Net, prio: map<LayerId, nat>, l: LayerId) returns (p: seq<LayerId>)
    requires g.Valid() && AllDone(g, prio) && IsMiddle(g, l)
    ensures MiddlePath(g, p, l) && |p| == PrioOf(g, prio, l)
    decreases PrioOf(g, prio, l)
  {
    assert PriorityOK(g, prio, l) && Done(g, prio, l);
    var top := ParentMax(g, prio, l, g.info[l].numIn);
    if top == 0 {
      return [l];
    }
    var i := ParentMaxAttained(g, prio, l, g.info[l].numIn);
    ParentIsNoOutput(g, i);
    var q := LongestPath(g, prio, g.source[i].layer);
    p := q + [l];
    assert IsParent(g, q[|q| - 1], l);
  }

  /** The layers under visit form a chain from the first one down to l: each reads the next. */
  ghost predicate StackOK(g: Net, visiting: set<LayerId>, stack: seq<LayerId>, l: LayerId) {
    && (forall v :: v in visiting <==> v in stack)
    && Walk(g, stack + [l])
  }

  lemma {:induction false} Deeper(g: Net, visiting: set<LayerId>, stack: seq<LayerId>, l: LayerId, i: InSlot)
    requires StackOK(g, visiting, stack, l) && i in g.source && i.layer == l
    ensures StackOK(g, visiting + {l}, stack + [l], g.source[i].layer)
  {
    var s := stack + [l];
    var t := s + [g.source[i].layer];
    forall j | 0 <= j < |t| - 1
      ensures IsParent(g, t[j + 1], t[j])
    {
      if j < |s| - 1 {
        assert IsParent(g, s[j + 1], s[j]);
      }
    }
  }

  /** Meeting a layer under visit again closes a cycle. */
  lemma {:induction false} ClosedCycle(g: Net, visiting: set<LayerId>, stack: seq<LayerId>, l: LayerId)
    requires StackOK(g, visiting, stack, l) && l in visiting
    ensures exists c :: IsCycle(g, c)
  {
    var s := stack + [l];
    var j := IndexOf(stack, l);
    var c := stack[j..];
    forall k | 0 <= k < |c| - 1
      ensures IsParent(g, c[k + 1], c[k])
    {
      assert IsParent(g, s[j + k + 1], s[j + k]);
    }
    assert IsParent(g, s[|s| - 2 + 1], s[|s| - 2]);
    assert IsCycle(g, c);
  }

  ghost predicate VisitingUnset(g: Net, prio: map<LayerId, nat>, visiting: set<LayerId>) {
    forall v :: v in visiting ==> IsMiddle(g, v) && PrioOf(g, prio, v) == 0
  }

  /** a goes before b: smaller priority, or equal priority and earlier in the old list. */
  ghost predicate Before(g: Net, prio: map<LayerId, nat>, listed: seq<LayerId>, a: LayerId, b: LayerId) {
    || PrioOf(g, prio, a) < PrioOf(g, prio, b)
    || (PrioOf(g, prio, a) == PrioOf(g, prio, b) && IndexOf(listed, a) < IndexOf(listed, b))
  }

  /** s lists the layers of t by priority, layers of equal priority in the order of t. */
  ghost predicate StablySorted(g: Net, prio: map<LayerId, nat>, t: seq<LayerId>, s: seq<LayerId>) {
    && Reordered(t, s)
    && (forall j, k :: 0 <= j < k < |s| ==> Before(g, prio, t, s[j], s[k]))
  }

  /** Layers of the same priority, and in particular the Inputs and the Outputs, stand in h in the order of g. */
  ghost predicate TieKept(g: Net, h: Net, prio: map<LayerId, nat>, a: LayerId, b: LayerId) {
    && a in g.info && b in g.info && Pos(g, a) < Pos(g, b)
    && (PrioOf(g, prio, a) == PrioOf(g, prio, b)
        || (g.info[a].kind.Input? && g.info[b].kind.Input?) || (g.info[a].kind.Output? && g.info[b].kind.Output?))
    ==> Pos(h, a) < Pos(h, b)
  }

  lemma {:induction false} TiesKept(g: Net, h: Net, prio: map<LayerId, nat>)
    requires g.Listed() && StablySorted(g, prio, g.layers, h.layers)
    ensures forall a, b :: TieKept(g, h, prio, a, b)
  {
    forall a, b
      ensures TieKept(g, h, prio, a, b)
    {
      if a in g.info && b in g.info && Pos(g, a) < Pos(g, b) {
        assert a in g.layers && b in g.layers;
        assert a in h.layers && b in h.layers;
        var j, k := Pos(h, a), Pos(h, b);
        assert k < j ==> Before(g, prio, g.layers, h.layers[k], h.layers[j]);
      }
    }
  }

  /** The visit of l ends: its priority is known and its mark is gone. */
  lemma {:induction false} VisitDone(g: Net, before: map<LayerId, nat>, prio: map<LayerId, nat>, prio': map<LayerId, nat>,
                                     l: LayerId, marks: set<LayerId>)
    requires g.Valid() && IsMiddle(g, l) && l !in marks
    requires PrioritiesOK(g, prio) && Extends(g, before, prio) && VisitingUnset(g, prio, marks + {l})
    requires ParentsDone(g, prio, l, g.info[l].numIn)
    requires prio' == prio[l := 1 + ParentMax(g, prio, l, g.info[l].numIn)]
    ensures PrioritiesOK(g, prio') && Extends(g, before, prio') && VisitingUnset(g, prio', marks)
    ensures Done(g, prio', l) && PrioOf(g, prio', l) == prio'[l]
  {
    assert l in marks + {l};
    RecordPriority(g, prio, l);
    ExtendsTransitive(g, before, prio, prio');
    forall v | v in marks
      ensures IsMiddle(g, v) && PrioOf(g, prio', v) == 0
    {
      assert v in marks + {l};
    }
  }

  /** All layers of s have known priorities. */
  ghost predicate Known(g: Net, prio: map<LayerId, nat>, s: seq<LayerId>) {
    forall l :: l in s ==> Done(g, prio, l)
  }

  lemma {:induction false} KnownStays(g: Net, prio: map<LayerId, nat>, prio': map<LayerId, nat>, s: seq<LayerId>)
    requires Known(g, prio, s) && Extends(g, prio, prio')
    ensures Known(g, prio', s)
    ensures forall l :: l in s ==> PrioOf(g, prio', l) == PrioOf(g, prio, l)
  {
    forall l | l in s
      ensures Done(g, prio', l) && PrioOf(g, prio', l) == PrioOf(g, prio, l)
    {
      assert Done(g, prio, l);
    }
  }

  lemma {:induction false} SortedStays(g: Net, prio: map<LayerId, nat>, prio': map<LayerId, nat>, t: seq<LayerId>, s: seq<LayerId>)
    requires Known(g, prio, s) && Extends(g, prio, prio') && StablySorted(g, prio, t, s)
    ensures StablySorted(g, prio', t, s)
  {
    KnownStays(g, prio, prio', s);
    forall j, k | 0 <= j < k < |s|
      ensures Before(g, prio', t, s[j], s[k])
    {
      assert s[j] in s && s[k] in s && Before(g, prio, t, s[j], s[k]);
    }
  }

  /** x, next in t, goes behind the sorted layers whose priority is not larger. */
  lemma {:induction false} InsertSorted(g: Net, prio: map<LayerId, nat>, t: seq<LayerId>, s: seq<LayerId>, x: LayerId, k: nat)
    requires StablySorted(g, prio, t, s) && NoDup(t) && x !in t && k <= |s|
    requires k > 0 ==> PrioOf(g, prio, s[k - 1]) <= PrioOf(g, prio, x)
    requires forall j :: k <= j < |s| ==> PrioOf(g, prio, x) < PrioOf(g, prio, s[j])
    ensures StablySorted(g, prio, t + [x], InsertAt(s, k, x))
  {
    var r, u := InsertAt(s, k, x), t + [x];
    InsertAtMembers(s, k, x);
    AppendMembers(t, x);
    forall a, b | 0 <= a < b < |r|
      ensures Before(g, prio, u, r[a], r[b])
    {
      InsertSortedPair(g, prio, t, s, x, k, a, b);
    }
  }

  lemma {:induction false} InsertSortedPair(g: Net, prio: map<LayerId, nat>, t: seq<LayerId>, s: seq<LayerId>, x: LayerId,
                                            k: nat, a: nat, b: nat)
    requires StablySorted(g, prio, t, s) && NoDup(t) && x !in t && k <= |s| && a < b <= |s|
    requires k > 0 ==> PrioOf(g, prio, s[k - 1]) <= PrioOf(g, prio, x)
    requires forall j :: k <= j < |s| ==> PrioOf(g, prio, x) < PrioOf(g, prio, s[j])
    ensures Before(g, prio, t + [x], InsertAt(s, k, x)[a], InsertAt(s, k, x)[b])
  {
    var r := InsertAt(s, k, x);
    AppendMembers(t, x);
    if a != k {
      assert r[a] in s;
    }
    if b != k {
      assert r[b] in s;
    }
    if a != k && b != k {
      assert Before(g, prio, t, s[if a < k then a else a - 1], s[if b < k then b else b - 1]);
    } else if b == k {
      assert a < k - 1 ==> Before(g, prio, t, s[a], s[k - 1]);
    }
  }

  /** Sorting by known priorities yields Inputs, middle layers, Outputs, and every edge forward. */
  lemma {:induction false} PrioritySortIsSorted(g: Net, h: Net, prio: map<LayerId, nat>)
    requires g.Valid() && AllDone(g, prio) && |g.info| < MAX_PRIORITY
    requires h == g.(layers := h.layers) && StablySorted(g, prio, g.layers, h.layers)
    ensures h.Valid() && Sorted(h)
  {
    RelistedIsLinked(g, h);
    forall i | i in h.source
      ensures Pos(h, h.source[i].layer) < Pos(h, i.layer)
    {
      PrioritiesClimb(g, prio, i);
      ParentIsNoOutput(g, i);
      ClimbIsForward(g, prio, h.layers, g.source[i].layer, i.layer);
    }
    forall j, k | 0 <= j < k < |h.layers|
      ensures Ranks(h)[j] <= Ranks(h)[k]
    {
      assert h.layers[j] in h.layers && h.layers[k] in h.layers;
      assert Before(g, prio, g.layers, h.layers[j], h.layers[k]);
      RankFollowsPriority(g, prio, h.layers[j], h.layers[k]);
    }
  }

  lemma {:induction false} ClimbIsForward(g: Net, prio: map<LayerId, nat>, s: seq<LayerId>, a: LayerId, b: LayerId)
    requires StablySorted(g, prio, g.layers, s) && a in s && b in s
    requires PrioOf(g, prio, a) < PrioOf(g, prio, b)
    ensures IndexOf(s, a) < IndexOf(s, b)
  {
    forall j, k | 0 <= j < k < |s| && s[j] == b
      ensures s[k] != a
    {
      assert Before(g, prio, g.layers, s[j], s[k]);
    }
  }

  lemma {:induction false} RankFollowsPriority(g: Net, prio: map<LayerId, nat>, a: LayerId, b: LayerId)
    requires g.Valid() && AllDone(g, prio) && |g.info| < MAX_PRIORITY && a in g.info && b in g.info
    requires PrioOf(g, prio, a) <= PrioOf(g, prio, b)
    ensures g.info[a].Rank() <= g.info[b].Rank()
  {
    assert Done(g, prio, a) && Done(g, prio, b);
    if IsMiddle(g, a) {
      PriorityAtMost(g, prio, a);
    }
    if IsMiddle(g, b) {
      PriorityAtMost(g, prio, b);
    }
  }

  lemma {:induction false} ResetDone(g: Net, prio: map<LayerId, nat>)
    requires g.Listed() && forall j :: 0 <= j < |g.layers| ==> g.layers[j] in prio && prio[g.layers[j]] == 0
    ensures PrioritiesOK(g, prio)
  {
    forall l
      ensures PriorityOK(g, prio, l)
    {
      if l in g.info {
        assert l in g.layers;
        assert prio[g.layers[IndexOf(g.layers, l)]] == 0;
      }
    }
  }

  lemma {:induction false} ShortIsSorted(g: Net, prio: map<LayerId, nat>, s: seq<LayerId>)
    requires |s| < 2
    ensures StablySorted(g, prio, s, s)
  {
    NoDupIntro(s);
  }

  lemma {:induction false} PrefixNext(t: seq<LayerId>, n: nat)
    requires NoDup(t) && n < |t|
    ensures t[..n + 1] == t[..n] + [t[n]] && NoDup(t[..n]) && t[n] !in t[..n]
  {
    forall i, j | 0 <= i < j < n
      ensures t[..n][i] != t[..n][j]
    {
      NoDupDistinct(t, i, j);
    }
    NoDupIntro(t[..n]);
    if t[n] in t[..n] {
      NoDupDistinct(t, IndexOf(t[..n], t[n]), n);
    }
  }

  lemma {:induction false} KnownInserted(g: Net, prio: map<LayerId, nat>, s: seq<LayerId>, x: LayerId, k: nat)
    requires Known(g, prio, s) && Done(g, prio, x) && k <= |s|
    ensures Known(g, prio, InsertAt(s, k, x))
  {
    forall l | l in InsertAt(s, k, x)
      ensures Done(g, prio, l)
    {
      var j := IndexOf(InsertAt(s, k, x), l);
      if j != k {
        assert l == s[if j < k then j else j - 1] && l in s;
      }
    }
  }

  lemma {:induction false} PlacedNext(g: Net, prio: map<LayerId, nat>, t: seq<LayerId>, s: seq<LayerId>, n: nat, k: nat)
    requires NoDup(t) && n < |t| && StablySorted(g, prio, t[..n], s) && Known(g, prio, s) && Done(g, prio, t[n]) && k <= |s|
    requires k > 0 ==> PrioOf(g, prio, s[k - 1]) <= PrioOf(g, prio, t[n])
    requires forall j :: k <= j < |s| ==> PrioOf(g, prio, t[n]) < PrioOf(g, prio, s[j])
    ensures StablySorted(g, prio, t[..n + 1], InsertAt(s, k, t[n])) && Known(g, prio, InsertAt(s, k, t[n]))
  {
    PrefixNext(t, n);
    InsertSorted(g, prio, t[..n], s, t[n], k);
    KnownInserted(g, prio, s, t[n], k);
  }

  /** Comparing x with a sorted layer leaves the sorted layers sorted, all with known priorities. */
  lemma {:induction false} Compared(g: Net, p: map<LayerId, nat>, q: map<LayerId, nat>, t: seq<LayerId>, s: seq<LayerId>,
                                    x: LayerId, k: nat)
    requires StablySorted(g, p, t, s) && Extends(g, p, q) && 0 < k <= |s| && Known(g, q, [x, s[k - 1]])
    requires |t| >= 2 || k < |s| ==> Known(g, p, s)
    requires k < |s| ==> Done(g, p, x)
    requires forall j :: k <= j < |s| ==> PrioOf(g, p, x) < PrioOf(g, p, s[j])
    ensures StablySorted(g, q, t, s) && Known(g, q, s) && Done(g, q, x)
    ensures forall j :: k <= j < |s| ==> PrioOf(g, q, x) < PrioOf(g, q, s[j])
  {
    assert x in [x, s[k - 1]] && s[k - 1] in [x, s[k - 1]];
    if |s| >= 2 {
      KnownStays(g, p, q, s);
      SortedStays(g, p, q, t, s);
      assert forall j :: k <= j < |s| ==> s[j] in s;
    }
  }

  lemma {:induction false} AllKnown(g: Net, prio: map<LayerId, nat>, s: seq<LayerId>)
    requires g.Listed() && PrioritiesOK(g, prio) && StablySorted(g, prio, g.layers, s) && Known(g, prio, s)
    ensures AllDone(g, prio)
  {
    forall l | l in g.info
      ensures Done(g, prio, l)
    {
      assert l in g.layers && l in s;
    }
  }

  /** A permutation of the list is as valid as the list. */
  lemma {:induction false} ReorderedIsValid(g: Net, s: seq<LayerId>, inputIds: set<int>, outputIds: set<int>, n: nat)
    requires ValidState(g, inputIds, outputIds, n) && Reordered(g.layers, s)
    ensures ValidState(g.(layers := s), inputIds, outputIds, n)
  {
    var h := g.(layers := s);
    RelistedIsLinked(g, h);
    PermutedIsValid(g, h, inputIds, outputIds, n);
  }

  lemma {:induction false} RelistedIsLinked(g: Net, h: Net)
    requires g.Valid() && h == g.(layers := h.layers)
    ensures h.Linked()
    ensures forall i :: i in h.overridden ==> h.IsIn(i)
  {
    forall o
      ensures h.SinksOK(o)
    {
      assert g.SinksOK(o);
    }
    forall i
      ensures h.SourceOK(i)
    {
      assert g.SourceOK(i);
    }
    forall i | i in h.overridden
      ensures h.IsIn(i)
    {
      assert g.IsIn(i);
    }
  }

  /** A finished sort of two or more layers has no cycle and leaves the list sorted. */
  lemma {:induction false} SortSucceeded(g: Net, prio: map<LayerId, nat>, s: seq<LayerId>)
    requires g.Valid() && PrioritiesOK(g, prio) && StablySorted(g, prio, g.layers, s) && Known(g, prio, s)
    requires |g.info| < MAX_PRIORITY
    ensures AllDone(g, prio) && Acyclic(g) && Sorted(g.(layers := s))
  {
    AllKnown(g, prio, s);
    PrioritiesRank(g, prio);
    PrioritySortIsSorted(g, g.(layers := s), prio);
  }

  /** Cycles do not depend on the order of the list. */
  lemma {:induction false} CycleRelisted(g: Net, h: Net)
    requires h == g.(layers := h.layers) && exists c :: IsCycle(g, c)
    ensures exists c :: IsCycle(h, c)
  {
    var c :| IsCycle(g, c);
    forall j | 0 <= j < |c| - 1
      ensures IsParent(h, c[j + 1], c[j])
    {
      assert IsParent(g, c[j + 1], c[j]);
    }
    assert IsParent(g, c[0], c[|c| - 1]) && IsParent(h, c[0], c[|c| - 1]);
    assert IsCycle(h, c);
  }

  lemma {:induction false} SortFailed(g: Net)
    requires exists c :: IsCycle(g, c)
    ensures !Acyclic(g)
  {
    var c :| IsCycle(g, c);
    CycleRefutesRank(g, c);
  }

  lemma {:induction false} LayerCount(g: Net)
    requires g.Listed()
    ensures |g.info| == |g.layers|
  {
    NoDupCardinality(g.layers);
    assert Elems(g.layers) == g.info.Keys;
  }
}
