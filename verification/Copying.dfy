/** The copy of a graph: the same layers and edges under new names. */
module Copying {
  import opened Sequences
  import opened NetGraph
  import opened Evaluation
  import opened Ordering
  import opened LayerEdits
  import opened Priorities
  import opened GraphModel

  type Naming = map<LayerId, LayerId>

  /** m and back are inverse to each other. */
  ghost predicate Inverse(m: Naming, back: Naming) {
    && (forall l :: l in m ==> m[l] in back && back[m[l]] == l)
    && (forall n :: n in back ==> back[n] in m && m[back[n]] == n)
  }

  function Renamed(m: Naming, l: LayerId): LayerId {
    if l in m then m[l] else l
  }

  function InOf(m: Naming, i: InSlot): InSlot {
    InSlot(Renamed(m, i.layer), i.index)
  }

  function OutOf(m: Naming, o: OutSlot): OutSlot {
    OutSlot(Renamed(m, o.layer), o.index)
  }

  function InsOf(m: Naming, s: seq<InSlot>): (r: seq<InSlot>)
    ensures |r| == |s|
    ensures forall k {:trigger r[k]} :: 0 <= k < |s| ==> r[k] == InOf(m, s[k])
  {
    seq(|s|, k requires 0 <= k < |s| => InOf(m, s[k]))
  }

  /** The layers named by m have been cloned, and there are no others. */
  ghost predicate LayersCopied(g: Net, h: Net, m: Naming, back: Naming) {
    && Inverse(m, back)
    && (forall l :: l in m ==> l in g.info)
    && (forall n :: n in h.info <==> n in back)
    && (forall l :: l in m ==> m[l] in h.info && h.info[m[l]] == g.info[l])
  }

  /** Two id sets that match the same list are equal. */
  lemma {:induction false} IdsUnique(s: seq<LayerId>, info: map<LayerId, LayerInfo>, rank: nat, a: set<int>, b: set<int>)
    requires IdsMatch(s, info, rank, a) && IdsMatch(s, info, rank, b)
    ensures a == b
  {
    if s != [] {
      var l, rest := s[|s| - 1], s[..|s| - 1];
      if l in info && info[l].Rank() == rank {
        var id := info[l].bindingId;
        IdsUnique(rest, info, rank, a - {id}, b - {id});
        assert a == (a - {id}) + {id} && b == (b - {id}) + {id};
      } else {
        IdsUnique(rest, info, rank, a, b);
      }
    }
  }

  lemma {:induction false} IdsOfPrefix(s: seq<LayerId>, info: map<LayerId, LayerInfo>, rank: nat, ids: set<int>,
                                       n: nat) returns (r: set<int>)
    requires IdsMatch(s, info, rank, ids) && n <= |s|
    ensures IdsMatch(s[..n], info, rank, r)
  {
    if n == |s| {
      assert s[..n] == s;
      r := ids;
    } else {
      var l, rest := s[|s| - 1], s[..|s| - 1];
      assert rest[..n] == s[..n];
      r := IdsOfPrefix(rest, info, rank, if l in info && info[l].Rank() == rank then ids - {info[l].bindingId} else ids, n);
    }
  }

  /** The next layer to clone has an id of its own. */
  lemma {:induction false} NextIsNew(s: seq<LayerId>, info: map<LayerId, LayerInfo>, rank: nat, all: set<int>, ids: set<int>, n: nat)
    requires IdsMatch(s, info, rank, all) && n < |s| && s[n] in info && IdsMatch(s[..n], info, rank, ids)
    ensures info[s[n]].Rank() == rank ==> info[s[n]].bindingId !in ids
    ensures IdsMatch(s[..n + 1], info, rank, IdsWith(info[s[n]], rank, ids))
  {
    var t := s[..n + 1];
    var next := IdsOfPrefix(s, info, rank, all, n + 1);
    assert t[..|t| - 1] == s[..n];
    var li := info[s[n]];
    if li.Rank() == rank {
      IdsUnique(s[..n], info, rank, ids, next - {li.bindingId});
      assert IdsWith(li, rank, ids) == next;
    } else {
      IdsUnique(s[..n], info, rank, ids, next);
    }
  }

  lemma {:induction false} LayersCopiedNext(g: Net, h: Net, h': Net, m: Naming, back: Naming, q: nat, l: LayerId, n: LayerId)
    requires LayersCopied(g, h, m, back) && l in g.info && l !in m && ListedAt(h, h', q, n, g.info[l])
    ensures LayersCopied(g, h', m[l := n], back[n := l])
  {
    var m', back' := m[l := n], back[n := l];
    forall x | x in m'
      ensures m'[x] in back' && back'[m'[x]] == x && m'[x] in h'.info && h'.info[m'[x]] == g.info[x]
    {
    }
    forall x | x in back'
      ensures back'[x] in m' && m'[back'[x]] == x
    {
      assert x != n ==> back[x] != l;
    }
  }

  /** What the first loop of the copy constructor keeps; k layers have been cloned. */
  ghost predicate Cloned(g: Net, h: Net, m: Naming, back: Naming, k: nat)
    requires k <= |g.layers|
  {
    && Partitioned(h) && h.source == map[] && h.overridden == map[]
    && LayersCopied(g, h, m, back) && m.Keys == Elems(g.layers[..k])
  }

  ghost predicate IdsCloned(g: Net, inputIds: set<int>, outputIds: set<int>, k: nat)
    requires k <= |g.layers|
  {
    IdsMatch(g.layers[..k], g.info, 0, inputIds) && IdsMatch(g.layers[..k], g.info, 2, outputIds)
  }

  lemma {:induction false} PrefixElems(s: seq<LayerId>, k: nat, m: Naming, n: LayerId)
    requires NoDup(s) && k < |s| && m.Keys == Elems(s[..k])
    ensures s[k] !in m && m[s[k] := n].Keys == Elems(s[..k + 1])
  {
    PrefixNext(s, k);
    assert Elems(s[..k + 1]) == Elems(s[..k]) + {s[k]};
  }

  lemma {:induction false} ClonedNext(g: Net, h: Net, h': Net, m: Naming, back: Naming, k: nat, q: nat, n: LayerId, l: LayerId)
    requires g.Listed() && h.Listed() && k < |g.layers| && l == g.layers[k] && Cloned(g, h, m, back, k)
    requires l in g.info && q == AddPosition(h, g.info[l]) && ListedAt(h, h', q, n, g.info[l]) && h'.source == h.source
    ensures Cloned(g, h', m[l := n], back[n := l], k + 1)
  {
    AddKeepsPartition(h, h', n, g.info[l]);
    PrefixElems(g.layers, k, m, n);
    LayersCopiedNext(g, h, h', m, back, q, l, n);
  }

  lemma {:induction false} IdsClonedNext(g: Net, inputs: set<int>, outputs: set<int>, inputIds: set<int>,
                                         outputIds: set<int>, n: nat, k: nat)
    requires ValidState(g, inputs, outputs, n) && k < |g.layers| && IdsCloned(g, inputIds, outputIds, k)
    ensures g.layers[k] in g.info
    ensures var li := g.info[g.layers[k]];
      && (li.kind.Input? ==> li.bindingId !in inputIds) && (li.kind.Output? ==> li.bindingId !in outputIds)
      && IdsCloned(g, IdsWith(li, 0, inputIds), IdsWith(li, 2, outputIds), k + 1)
  {
    assert g.layers[k] in g.layers;
    NextIsNew(g.layers, g.info, 0, inputs, inputIds, k);
    NextIsNew(g.layers, g.info, 2, outputs, outputIds, k);
  }

  /** All layers so far are Inputs and Outputs. */
  ghost predicate NoMiddle(h: Net) {
    forall n :: n in h.info ==> h.info[n].Rank() != 1
  }

  /** All layers are Inputs and Outputs. */
  ghost predicate OnlyEnds(g: Net) {
    forall l :: l in g.info ==> g.info[l].kind.Input? || g.info[l].kind.Output?
  }

  /** The first k layers are Inputs and Outputs. */
  ghost predicate EndsOnly(g: Net, k: nat) {
    forall j :: 0 <= j < k && j < |g.layers| && g.layers[j] in g.info ==> g.info[g.layers[j]].kind.Input? || g.info[g.layers[j]].kind.Output?
  }

  /** The first k layers have been copied, and the flag is up if it should be. */
  ghost predicate Cloning(other: Graph, graph: Graph, m: Naming, back: Naming, k: nat)
    requires k <= |other.layers|
    reads other, graph
  {
    && Cloned(other.Snapshot(), graph.Snapshot(), m, back, k) && IdsCloned(other.Snapshot(), graph.inputIds, graph.outputIds, k)
    && (graph.layersInOrder ==> NoMiddle(graph.Snapshot()))
    && (graph.layersInOrder <==> other.layersInOrder && EndsOnly(other.Snapshot(), k))
  }

  /** Layer::Clone of the k-th layer, which adds it to the copy. The binding id is never taken. */
  method Clone(other: Graph, graph: Graph, m: Naming, ghost back: Naming, k: nat, ghost next: nat)
    returns (m': Naming, ghost back': Naming)
    requires other.Valid() && other != graph && graph.Valid() && k < |other.layers| && next == k + 1
    requires Cloning(other, graph, m, back, k)
    modifies graph`layers, graph`info, graph`nextGuid, graph`inputIds, graph`outputIds, graph`layersInOrder
    ensures graph.Valid() && Cloning(other, graph, m', back', next)
  {
    var l := other.layers[k];
    ghost var g, h := other.Snapshot(), graph.Snapshot();
    IdsClonedNext(g, other.inputIds, other.outputIds, graph.inputIds, graph.outputIds, other.nextGuid, k);
    EndsNext(g, k, next);
    var r := graph.AddLayer(other.info[l]);
    var n := r.value;
    m', back' := m[l := n], back[n := l];
    ClonedNext(g, h, graph.Snapshot(), m, back, k, AddPosition(h, g.info[l]), n, l);
  }

  lemma {:induction false} EndsNext(g: Net, k: nat, next: nat)
    requires g.Listed() && k < |g.layers| && next == k + 1
    ensures EndsOnly(g, next) <==> EndsOnly(g, k) && (g.info[g.layers[k]].kind.Input? || g.info[g.layers[k]].kind.Output?)
  {
    assert g.layers[k] in g.layers;
  }

  /** The first c connections of o have been copied, all those of the slots in full, and no others. */
  ghost function Copies(g: Net, full: set<OutSlot>, o: OutSlot, c: nat, p: OutSlot): seq<InSlot> {
    if p in full then g.Sinks(p) else if p == o && c <= |g.Sinks(p)| then g.Sinks(p)[..c] else []
  }

  ghost predicate SlotCopied(g: Net, h: Net, m: Naming, full: set<OutSlot>, o: OutSlot, c: nat, p: OutSlot) {
    h.Sinks(OutOf(m, p)) == InsOf(m, Copies(g, full, o, c, p)) && Unassigned(h, OutOf(m, p))
  }

  /** The tensor info set on input slot i is copied along with the connection. */
  ghost predicate InfoCopied(g: Net, h: Net, m: Naming, full: set<OutSlot>, o: OutSlot, c: nat, i: InSlot) {
    var there := i in g.source && i in g.overridden && i in Copies(g, full, o, c, g.source[i]);
    (InOf(m, i) in h.overridden <==> there) && (there ==> h.overridden[InOf(m, i)] == g.overridden[i])
  }

  ghost predicate EdgesCopied(g: Net, h: Net, m: Naming, full: set<OutSlot>, o: OutSlot, c: nat) {
    && (forall p: OutSlot :: p.layer in g.info ==> SlotCopied(g, h, m, full, o, c, p))
    && (forall i: InSlot :: i.layer in g.info ==> InfoCopied(g, h, m, full, o, c, i))
  }

  lemma {:induction false} NothingCopied(g: Net, h: Net, m: Naming)
    requires h.Linked() && h.source == map[] && h.overridden == map[]
    ensures FullyCopied(g, h, m, {})
  {
    forall p
      ensures h.Sinks(p) == [] && h.Strategies(p) == []
    {
      assert h.SinksOK(p);
      if h.Sinks(p) != [] {
        HasMember(h.Sinks(p));
      }
    }
  }

  /** The next connection's input slot is still free in the copy: Connect cannot fail. */
  lemma {:induction false} StillFree(g: Net, h: Net, m: Naming, back: Naming, full: set<OutSlot>, o: OutSlot, c: nat)
    requires g.Linked() && h.Linked() && LayersCopied(g, h, m, back) && m.Keys == g.info.Keys
    requires EdgesCopied(g, h, m, full, o, c) && o !in full && c < |g.Sinks(o)|
    ensures InOf(m, g.Sinks(o)[c]) !in h.source
  {
    var i := g.Sinks(o)[c];
    assert g.SinksOK(o) && i in g.Sinks(o) && g.SourceOK(i);
    if InOf(m, i) in h.source {
      assert h.SourceOK(InOf(m, i));
      var q := h.source[InOf(m, i)];
      var p := OutSlot(back[q.layer], q.index);
      assert OutOf(m, p) == q && p.layer in g.info;
      assert SlotCopied(g, h, m, full, o, c, p);
      var s := Copies(g, full, o, c, p);
      var k := IndexOf(InsOf(m, s), InOf(m, i));
      assert InOf(m, s[k]) == InOf(m, i);
      NamedOnce(g, m, back, full, o, c, p, k, i);
    }
  }

  lemma {:induction false} NamedOnce(g: Net, m: Naming, back: Naming, full: set<OutSlot>, o: OutSlot, c: nat, p: OutSlot, k: nat, i: InSlot)
    requires g.Linked() && Inverse(m, back) && m.Keys == g.info.Keys && o !in full && c < |g.Sinks(o)| && i == g.Sinks(o)[c]
    requires k < |Copies(g, full, o, c, p)|
    ensures InOf(m, Copies(g, full, o, c, p)[k]) != InOf(m, i)
  {
    var j := Copies(g, full, o, c, p)[k];
    assert g.SinksOK(o) && g.SinksOK(p) && i in g.Sinks(o);
    assert j == g.Sinks(p)[k] && j in g.Sinks(p);
    assert g.SourceOK(i) && g.SourceOK(j);
    assert back[m[i.layer]] == i.layer && back[m[j.layer]] == j.layer;
    IndexOfUnique(g.Sinks(o), c);
    IndexOfUnique(g.Sinks(p), k);
  }

  /** h' is h with input slot j connected to output slot q and, perhaps, a tensor info of its own. */
  ghost predicate Attached(h: Net, h': Net, q: OutSlot, j: InSlot) {
    && (forall p :: h'.Sinks(p) == if p == q then h.Sinks(q) + [j] else h.Sinks(p))
    && (forall p :: Unassigned(h, p) ==> Unassigned(h', p))
    && (forall i :: i != j ==> (i in h'.overridden <==> i in h.overridden) && (i in h.overridden ==> h'.overridden[i] == h.overridden[i]))
  }

  lemma {:induction false} SlotCopiedNext(g: Net, h: Net, h': Net, m: Naming, back: Naming, full: set<OutSlot>, o: OutSlot,
                                          c: nat, p: OutSlot)
    requires Inverse(m, back) && m.Keys == g.info.Keys && o.layer in g.info && o !in full && c < |g.Sinks(o)| && p.layer in g.info
    requires SlotCopied(g, h, m, full, o, c, p) && Attached(h, h', OutOf(m, o), InOf(m, g.Sinks(o)[c]))
    ensures SlotCopied(g, h', m, full, o, c + 1, p)
  {
    assert back[m[p.layer]] == p.layer && back[m[o.layer]] == o.layer;
    assert g.Sinks(o)[..c + 1] == g.Sinks(o)[..c] + [g.Sinks(o)[c]];
    assert p == o ==> h'.Sinks(OutOf(m, p)) == InsOf(m, Copies(g, full, o, c + 1, p));
  }

  lemma {:induction false} InfoCopiedNext(g: Net, h: Net, h': Net, m: Naming, back: Naming, full: set<OutSlot>, o: OutSlot,
                                          c: nat, i: InSlot)
    requires g.Linked() && Inverse(m, back) && m.Keys == g.info.Keys && o !in full && c < |g.Sinks(o)| && i.layer in g.info
    requires InfoCopied(g, h, m, full, o, c, i) && Attached(h, h', OutOf(m, o), InOf(m, g.Sinks(o)[c]))
    requires var j := g.Sinks(o)[c];
      (InOf(m, j) in h'.overridden <==> j in g.overridden) && (j in g.overridden ==> h'.overridden[InOf(m, j)] == g.overridden[j])
    ensures InfoCopied(g, h', m, full, o, c + 1, i)
  {
    var j := g.Sinks(o)[c];
    assert g.SinksOK(o) && j in g.Sinks(o) && g.SourceOK(j);
    assert back[m[i.layer]] == i.layer && back[m[j.layer]] == j.layer;
    assert g.Sinks(o)[..c + 1] == g.Sinks(o)[..c] + [j];
  }

  lemma {:induction false} EdgesCopiedNext(g: Net, h: Net, h': Net, m: Naming, back: Naming, full: set<OutSlot>, o: OutSlot, c: nat)
    requires g.Linked() && Inverse(m, back) && m.Keys == g.info.Keys && o.layer in g.info && o !in full && c < |g.Sinks(o)|
    requires EdgesCopied(g, h, m, full, o, c) && Attached(h, h', OutOf(m, o), InOf(m, g.Sinks(o)[c]))
    requires var j := g.Sinks(o)[c];
      (InOf(m, j) in h'.overridden <==> j in g.overridden) && (j in g.overridden ==> h'.overridden[InOf(m, j)] == g.overridden[j])
    ensures EdgesCopied(g, h', m, full, o, c + 1)
  {
    var c' := c + 1;
    forall p: OutSlot | p.layer in g.info
      ensures SlotCopied(g, h', m, full, o, c', p)
    {
      SlotCopiedNext(g, h, h', m, back, full, o, c, p);
    }
    forall i: InSlot | i.layer in g.info
      ensures InfoCopied(g, h', m, full, o, c', i)
    {
      InfoCopiedNext(g, h, h', m, back, full, o, c, i);
    }
  }

  /** The connections of the slots in full have been copied, and no others. */
  ghost predicate FullyCopied(g: Net, h: Net, m: Naming, full: set<OutSlot>) {
    EdgesCopied(g, h, m, full, OutSlot(0, 0), 0)
  }

  lemma {:induction false} EdgesSame(g: Net, h: Net, m: Naming, full: set<OutSlot>, o: OutSlot, c: nat, full': set<OutSlot>,
                                     o': OutSlot, c': nat)
    requires EdgesCopied(g, h, m, full, o, c) && forall p :: Copies(g, full, o, c, p) == Copies(g, full', o', c', p)
    ensures EdgesCopied(g, h, m, full', o', c')
  {
    forall p: OutSlot | p.layer in g.info
      ensures SlotCopied(g, h, m, full', o', c', p)
    {
      assert SlotCopied(g, h, m, full, o, c, p);
    }
    forall i: InSlot | i.layer in g.info
      ensures InfoCopied(g, h, m, full', o', c', i)
    {
      assert InfoCopied(g, h, m, full, o, c, i);
    }
  }

  lemma {:induction false} SlotBegins(g: Net, h: Net, m: Naming, full: set<OutSlot>, o: OutSlot)
    requires FullyCopied(g, h, m, full)
    ensures EdgesCopied(g, h, m, full, o, 0)
  {
    EdgesSame(g, h, m, full, OutSlot(0, 0), 0, full, o, 0);
  }

  /** A slot whose connections are all copied counts as full. */
  lemma {:induction false} SlotFull(g: Net, h: Net, m: Naming, full: set<OutSlot>, o: OutSlot, c: nat)
    requires c == |g.Sinks(o)| && EdgesCopied(g, h, m, full, o, c)
    ensures FullyCopied(g, h, m, full + {o})
  {
    assert g.Sinks(o)[..c] == g.Sinks(o);
    EdgesSame(g, h, m, full, o, c, full + {o}, OutSlot(0, 0), 0);
  }

  /** h is a copy of g under the names m: the same layers, every connection list in the same order, the tensor
      infos set on connected input slots; no strategies. */
  ghost predicate Isomorphic(g: Net, h: Net, m: Naming, back: Naming) {
    && LayersCopied(g, h, m, back) && m.Keys == g.info.Keys
    && (forall o: OutSlot :: o.layer in g.info ==> h.Sinks(OutOf(m, o)) == InsOf(m, g.Sinks(o)) && Unassigned(h, OutOf(m, o)))
    && (forall i: InSlot :: i.layer in g.info ==> EdgeCopied(g, h, m, i))
  }

  ghost predicate EdgeCopied(g: Net, h: Net, m: Naming, i: InSlot) {
    && (InOf(m, i) in h.source <==> i in g.source)
    && (i in g.source ==> h.source[InOf(m, i)] == OutOf(m, g.source[i]))
    && (InOf(m, i) in h.overridden <==> i in g.source && i in g.overridden)
    && (i in g.source && i in g.overridden ==> h.overridden[InOf(m, i)] == g.overridden[i])
  }

  /** All connections of all slots copied. */
  lemma {:induction false} AllCopied(g: Net, h: Net, m: Naming, back: Naming, full: set<OutSlot>)
    requires g.Linked() && h.Linked() && LayersCopied(g, h, m, back) && m.Keys == g.info.Keys
    requires FullyCopied(g, h, m, full) && forall p :: g.IsOut(p) ==> p in full
    ensures Isomorphic(g, h, m, back)
  {
    forall p: OutSlot | p.layer in g.info
      ensures h.Sinks(OutOf(m, p)) == InsOf(m, g.Sinks(p)) && Unassigned(h, OutOf(m, p))
    {
      assert SlotCopied(g, h, m, full, OutSlot(0, 0), 0, p);
      if g.Sinks(p) != [] {
        SinksOwned(g, p);
      }
    }
    forall i: InSlot | i.layer in g.info
      ensures EdgeCopied(g, h, m, i)
    {
      assert InfoCopied(g, h, m, full, OutSlot(0, 0), 0, i);
      AllEdgesCopied(g, h, m, back, i);
      assert g.SourceOK(i);
    }
  }

  lemma {:induction false} AllEdgesCopied(g: Net, h: Net, m: Naming, back: Naming, i: InSlot)
    requires g.Linked() && h.Linked() && LayersCopied(g, h, m, back) && m.Keys == g.info.Keys && i.layer in g.info
    requires forall o: OutSlot :: o.layer in g.info ==> h.Sinks(OutOf(m, o)) == InsOf(m, g.Sinks(o))
    ensures InOf(m, i) in h.source <==> i in g.source
    ensures i in g.source ==> h.source[InOf(m, i)] == OutOf(m, g.source[i])
  {
    if i in g.source {
      assert g.SourceOK(i);
      var o := g.source[i];
      var k := IndexOf(g.Sinks(o), i);
      assert InsOf(m, g.Sinks(o))[k] == InOf(m, i);
      assert InOf(m, i) in h.Sinks(OutOf(m, o)) && h.SinksOK(OutOf(m, o));
    }
    if InOf(m, i) in h.source {
      assert h.SourceOK(InOf(m, i));
      var q := h.source[InOf(m, i)];
      var p := OutSlot(back[q.layer], q.index);
      assert OutOf(m, p) == q;
      var k := IndexOf(InsOf(m, g.Sinks(p)), InOf(m, i));
      var j := g.Sinks(p)[k];
      assert j in g.Sinks(p) && g.SinksOK(p) && g.SourceOK(j);
      assert back[m[j.layer]] == j.layer && back[m[i.layer]] == i.layer;
    }
  }

  /** The values of h under the names of g. */
  ghost function PulledBack(g: Net, w: Assignment, m: Naming): (v: Assignment)
    ensures forall o :: o in v <==> g.IsOut(o) && OutOf(m, o) in w
    ensures forall o :: o in v ==> v[o] == w[OutOf(m, o)]
  {
    map o | o in OutSlots(g) && OutOf(m, o) in w :: w[OutOf(m, o)]
  }

  lemma {:induction false} PulledBackSolves(g: Net, h: Net, m: Naming, back: Naming, f: Sem, f': Sem, w: Assignment)
    requires g.Linked() && Isomorphic(g, h, m, back) && Solves(h, f', w)
    requires forall l, args, k :: l in m ==> f'(m[l], args, k) == f(l, args, k)
    ensures Solves(g, f, PulledBack(g, w, m))
  {
    var v := PulledBack(g, w, m);
    forall o | g.IsOut(o)
      ensures o in v && SolvesAt(g, f, v, o)
    {
      assert h.IsOut(OutOf(m, o)) && SolvesAt(h, f', w, OutOf(m, o));
      forall k: nat | k < g.info[o.layer].numIn
        ensures ArgVal(g, v, InSlot(o.layer, k)) == ArgVal(h, w, InSlot(m[o.layer], k))
      {
        var i := InSlot(o.layer, k);
        assert g.SourceOK(i) && EdgeCopied(g, h, m, i) && InOf(m, i) == InSlot(m[o.layer], k);
      }
      assert Args(g, v, o.layer) == Args(h, w, m[o.layer]);
    }
  }

  lemma {:induction false} CopyIsAcyclic(g: Net, h: Net, m: Naming, back: Naming)
    requires h.Linked() && g.Linked() && Isomorphic(g, h, m, back) && Acyclic(g)
    ensures Acyclic(h)
  {
    var rg: map<LayerId, nat> :| Ranked(g, rg);
    var rank := map n | n in h.info :: if back[n] in rg then rg[back[n]] else 0;
    forall j | j in h.source
      ensures j.layer in rank && h.source[j].layer in rank && rank[h.source[j].layer] < rank[j.layer]
    {
      assert h.SourceOK(j);
      var i := InSlot(back[j.layer], j.index);
      assert InOf(m, i) == j && EdgeCopied(g, h, m, i) && g.SourceOK(i);
    }
    assert Ranked(h, rank);
  }

  /** A copy computes what the original computes. */
  lemma {:induction false} CopyKeepsMeaning(g: Net, h: Net, m: Naming, back: Naming, f: Sem, f': Sem)
    requires g.Linked() && h.Linked() && Isomorphic(g, h, m, back) && Acyclic(g)
    requires forall l, args, k :: l in m ==> f'(m[l], args, k) == f(l, args, k)
    ensures Acyclic(h)
    ensures forall o :: g.IsOut(o) ==> h.IsOut(OutOf(m, o)) && Meaning(h, f')[OutOf(m, o)] == Meaning(g, f)[o]
  {
    CopyIsAcyclic(g, h, m, back);
    PulledBackSolves(g, h, m, back, f, f', Meaning(h, f'));
    MeaningUnique(g, f, PulledBack(g, Meaning(h, f'), m));
  }

  lemma {:induction false} AttachedKeepsValid(h: Net, a: Net, h': Net, q: OutSlot, j: InSlot, inputIds: set<int>,
                                              outputIds: set<int>, n: nat)
    requires ValidState(h, inputIds, outputIds, n) && h.IsIn(j) && h.IsOut(q) && j !in h.source
    requires a == h.(overridden := a.overridden) && (forall i :: i in a.overridden ==> i in h.overridden || i == j)
    requires forall i :: i != j && i in h.overridden ==> i in a.overridden && a.overridden[i] == h.overridden[i]
    requires h' == a.Link(q, j) && h'.Linked()
    ensures ValidState(h', inputIds, outputIds, n)
    ensures Attached(h, h', q, j)
  {
    forall i | i in h'.overridden
      ensures h'.IsIn(i)
    {
      assert i in h.overridden ==> h.IsIn(i);
    }
    assert a.Strategies(q) == h.Strategies(q);
    forall p | Unassigned(h, p)
      ensures Unassigned(h', p)
    {
      assert forall s :: s in h'.Strategies(p) ==> s in h.Strategies(p) || s == Undefined;
    }
  }

  /** The copy's layers are all there. */
  ghost predicate Paired(other: Graph, graph: Graph, m: Naming, back: Naming)
    reads other, graph
  {
    && other.Valid() && graph.Valid() && other != graph
    && LayersCopied(other.Snapshot(), graph.Snapshot(), m, back) && m.Keys == other.info.Keys
  }

  /** One connection: the tensor info set on the input slot goes along, and Connect succeeds. */
  method CopyConnection(other: Graph, graph: Graph, m: Naming, ghost back: Naming, ghost full: set<OutSlot>, o: OutSlot, c: nat)
    requires Paired(other, graph, m, back) && o.layer in other.info
    requires EdgesCopied(other.Snapshot(), graph.Snapshot(), m, full, o, c) && o !in full && c < |other.Snapshot().Sinks(o)|
    modifies graph`source, graph`sinks, graph`strategies, graph`overridden
    ensures Paired(other, graph, m, back) && EdgesCopied(other.Snapshot(), graph.Snapshot(), m, full, o, c + 1)
    ensures graph.layers == old(graph.layers) && graph.info == old(graph.info)
  {
    ghost var g, h := other.Snapshot(), graph.Snapshot();
    var i := other.Snapshot().Sinks(o)[c];
    StillFree(g, h, m, back, full, o, c);
    ConnectionSlots(g, h, m, back, o, c);
    Attach(graph, OutOf(m, o), InOf(m, i), other.overridden, i);
    ConnectionCopied(g, h, graph.Snapshot(), m, back, full, o, c);
  }

  /** SetTensorInfo, if i has a tensor info of its own, and Connect. */
  method Attach(graph: Graph, q: OutSlot, j: InSlot, infos: map<InSlot, TensorInfo>, i: InSlot)
    requires graph.Valid() && graph.Snapshot().IsIn(j) && graph.Snapshot().IsOut(q) && j !in graph.source
    modifies graph`source, graph`sinks, graph`strategies, graph`overridden
    ensures graph.Valid() && Attached(old(graph.Snapshot()), graph.Snapshot(), q, j)
    ensures graph.layers == old(graph.layers) && graph.info == old(graph.info)
    ensures i in infos ==> j in graph.overridden && graph.overridden[j] == infos[i]
    ensures i !in infos ==> graph.overridden == old(graph.overridden)
  {
    ghost var h := graph.Snapshot();
    if i in infos {
      graph.overridden := graph.overridden[j := infos[i]];
    }
    ghost var a := graph.Snapshot();
    OverriddenKeepsValid(h, a, graph.inputIds, graph.outputIds, graph.nextGuid);
    var r := graph.Connect(q, j);
    AttachedKeepsValid(h, a, graph.Snapshot(), q, j, graph.inputIds, graph.outputIds, graph.nextGuid);
  }

  lemma {:induction false} ConnectionCopied(g: Net, h: Net, h': Net, m: Naming, back: Naming, full: set<OutSlot>, o: OutSlot, c: nat)
    requires g.Linked() && Inverse(m, back) && m.Keys == g.info.Keys && o.layer in g.info && o !in full && c < |g.Sinks(o)|
    requires EdgesCopied(g, h, m, full, o, c) && Attached(h, h', OutOf(m, o), InOf(m, g.Sinks(o)[c]))
    requires var i := g.Sinks(o)[c];
      && (i in g.overridden ==> InOf(m, i) in h'.overridden && h'.overridden[InOf(m, i)] == g.overridden[i])
      && (i !in g.overridden ==> h'.overridden == h.overridden)
    ensures EdgesCopied(g, h', m, full, o, c + 1)
  {
    InfoOfNext(g, h, m, full, o, c);
    EdgesCopiedNext(g, h, h', m, back, full, o, c);
  }

  lemma {:induction false} ConnectionSlots(g: Net, h: Net, m: Naming, back: Naming, o: OutSlot, c: nat)
    requires g.Linked() && LayersCopied(g, h, m, back) && m.Keys == g.info.Keys && c < |g.Sinks(o)|
    ensures h.IsIn(InOf(m, g.Sinks(o)[c])) && h.IsOut(OutOf(m, o))
  {
    var i := g.Sinks(o)[c];
    assert g.SinksOK(o) && i in g.Sinks(o) && g.SourceOK(i);
  }

  /** Nothing was recorded for the input slot yet. */
  lemma {:induction false} InfoOfNext(g: Net, h: Net, m: Naming, full: set<OutSlot>, o: OutSlot, c: nat)
    requires g.Linked() && EdgesCopied(g, h, m, full, o, c) && o !in full && c < |g.Sinks(o)|
    ensures InOf(m, g.Sinks(o)[c]) !in h.overridden
  {
    var i := g.Sinks(o)[c];
    assert g.SinksOK(o) && i in g.Sinks(o) && g.SourceOK(i);
    assert InfoCopied(g, h, m, full, o, c, i);
    IndexOfUnique(g.Sinks(o), c);
    assert forall k :: 0 <= k < c ==> g.Sinks(o)[..c][k] == g.Sinks(o)[k];
  }

  /** All connections of one output slot. */
  method CopySlot(other: Graph, graph: Graph, m: Naming, ghost back: Naming, ghost full: set<OutSlot>, o: OutSlot)
    requires Paired(other, graph, m, back) && o.layer in other.info
    requires FullyCopied(other.Snapshot(), graph.Snapshot(), m, full) && o !in full
    modifies graph`source, graph`sinks, graph`strategies, graph`overridden
    ensures Paired(other, graph, m, back) && FullyCopied(other.Snapshot(), graph.Snapshot(), m, full + {o})
    ensures graph.layers == old(graph.layers) && graph.info == old(graph.info)
  {
    ghost var g := other.Snapshot();
    SlotBegins(g, graph.Snapshot(), m, full, o);
    var c: nat := 0;
    while c < |other.Snapshot().Sinks(o)|
      invariant c <= |g.Sinks(o)| && Paired(other, graph, m, back) && EdgesCopied(g, graph.Snapshot(), m, full, o, c)
      invariant graph.layers == old(graph.layers) && graph.info == old(graph.info)
    {
      CopyConnection(other, graph, m, back, full, o, c);
      c := c + 1;
    }
    SlotFull(g, graph.Snapshot(), m, full, o, c);
  }

  /** The output slots of the first k layers and the first j of the k-th. */
  ghost predicate FullUpTo(g: Net, full: set<OutSlot>, k: nat, j: nat) {
    forall o :: o in full <==> g.IsOut(o) && (Pos(g, o.layer) < k || (Pos(g, o.layer) == k && o.index < j))
  }

  /** All output slots of one layer. */
  method CopyLayer(other: Graph, graph: Graph, m: Naming, ghost back: Naming, ghost full: set<OutSlot>,
                   k: nat) returns (ghost full': set<OutSlot>)
    requires Paired(other, graph, m, back) && k < |other.layers|
    requires FullyCopied(other.Snapshot(), graph.Snapshot(), m, full) && FullUpTo(other.Snapshot(), full, k, 0)
    modifies graph`source, graph`sinks, graph`strategies, graph`overridden
    ensures Paired(other, graph, m, back) && graph.layers == old(graph.layers) && graph.info == old(graph.info)
    ensures FullyCopied(other.Snapshot(), graph.Snapshot(), m, full') && FullUpTo(other.Snapshot(), full', k + 1, 0)
  {
    ghost var g := other.Snapshot();
    var l := other.layers[k];
    assert l in other.layers;
    IndexOfUnique(other.layers, k);
    full' := full;
    var j := 0;
    while j < other.info[l].numOut
      invariant j <= other.info[l].numOut && Paired(other, graph, m, back)
      invariant graph.layers == old(graph.layers) && graph.info == old(graph.info)
      invariant FullUpTo(g, full', k, j) && FullyCopied(g, graph.Snapshot(), m, full')
    {
      CopySlot(other, graph, m, back, full', OutSlot(l, j));
      FullNext(g, full', k, j);
      full' := full' + {OutSlot(l, j)};
      j := j + 1;
    }
    FullLayer(g, full', k);
  }

  lemma {:induction false} FullNext(g: Net, full: set<OutSlot>, k: nat, j: nat)
    requires g.Listed() && k < |g.layers| && FullUpTo(g, full, k, j) && g.IsOut(OutSlot(g.layers[k], j))
    ensures FullUpTo(g, full + {OutSlot(g.layers[k], j)}, k, j + 1)
  {
    IndexOfUnique(g.layers, k);
    assert forall l :: l in g.info && Pos(g, l) == k ==> l in g.layers;
  }

  lemma {:induction false} FullLayer(g: Net, full: set<OutSlot>, k: nat)
    requires g.Listed() && k < |g.layers| && g.layers[k] in g.info && FullUpTo(g, full, k, g.info[g.layers[k]].numOut)
    ensures FullUpTo(g, full, k + 1, 0)
  {
    IndexOfUnique(g.layers, k);
    assert forall l :: l in g.info && Pos(g, l) == k ==> l in g.layers;
  }

  /** The layers' part of the copy. */
  method CloneLayers(other: Graph) returns (graph: Graph, m: Naming, ghost back: Naming)
    requires other.Valid()
    ensures fresh(graph) && graph.Valid() && other.Valid() && other.Snapshot() == old(other.Snapshot())
    ensures Cloned(old(other.Snapshot()), graph.Snapshot(), m, back, |old(other.layers)|)
    ensures graph.layersInOrder ==> NoMiddle(graph.Snapshot())
    ensures graph.layersInOrder <==> old(other.layersInOrder && OnlyEnds(other.Snapshot()))
  {
    graph := StartCopy(other);
    m, back := map[], map[];
    var k: nat := 0;
    while k < |other.layers|
      invariant k <= |other.layers| && fresh(graph) && graph.Valid() && Cloning(other, graph, m, back, k)
    {
      var next := k + 1;
      m, back := Clone(other, graph, m, back, k, next);
      k := next;
    }
    AllEnds(other.Snapshot());
  }

  /** The copy before the first layer: empty, with the original's flag. */
  method StartCopy(other: Graph) returns (graph: Graph)
    requires other.Valid()
    ensures fresh(graph) && graph.Valid() && Cloning(other, graph, map[], map[], 0)
  {
    graph := new Graph();
    graph.layersInOrder := other.layersInOrder;
    ClonedStart(other.Snapshot(), graph.Snapshot());
  }

  lemma {:induction false} ClonedStart(g: Net, h: Net)
    requires h.Valid() && h.layers == [] && h.info == map[] && h.source == map[]
    ensures Cloned(g, h, map[], map[], 0)
  {
    assert Ranks(h) == [];
    assert forall i :: i in h.overridden ==> h.IsIn(i);
    assert Elems(g.layers[..0]) == {};
  }

  /** Without middle layers a partitioned list has every edge forward. */
  lemma {:induction false} NoMiddleIsSorted(h: Net)
    requires h.Valid() && Partitioned(h) && NoMiddle(h)
    ensures Sorted(h)
  {
    forall i | i in h.source
      ensures Pos(h, h.source[i].layer) < Pos(h, i.layer)
    {
      assert h.SourceOK(i);
      var a, b := h.source[i].layer, i.layer;
      assert a in h.layers && b in h.layers;
      assert Ranks(h)[Pos(h, a)] == 0 && Ranks(h)[Pos(h, b)] == 2;
    }
  }

  /** The connections' part of the copy. */
  method CopyEdges(other: Graph, graph: Graph, m: Naming, ghost back: Naming)
    requires Paired(other, graph, m, back) && FullyCopied(other.Snapshot(), graph.Snapshot(), m, {})
    modifies graph`source, graph`sinks, graph`strategies, graph`overridden
    ensures graph.Valid() && Isomorphic(other.Snapshot(), graph.Snapshot(), m, back)
    ensures graph.layers == old(graph.layers) && graph.info == old(graph.info)
  {
    ghost var g := other.Snapshot();
    ghost var full: set<OutSlot> := {};
    var k: nat := 0;
    while k < |other.layers|
      invariant k <= |other.layers| && Paired(other, graph, m, back)
      invariant graph.layers == old(graph.layers) && graph.info == old(graph.info)
      invariant FullyCopied(g, graph.Snapshot(), m, full) && FullUpTo(g, full, k, 0)
    {
      full := CopyLayer(other, graph, m, back, full, k);
      k := k + 1;
    }
    EdgesDone(g, graph.Snapshot(), m, back, full, k);
  }

  lemma {:induction false} EdgesDone(g: Net, h: Net, m: Naming, back: Naming, full: set<OutSlot>, k: nat)
    requires g.Valid() && h.Valid() && LayersCopied(g, h, m, back) && m.Keys == g.info.Keys
    requires FullyCopied(g, h, m, full) && FullUpTo(g, full, k, 0) && k == |g.layers|
    ensures Isomorphic(g, h, m, back)
  {
    assert forall l :: l in g.info ==> l in g.layers;
    AllCopied(g, h, m, back, full);
  }

  /** The copy constructor. Its flag says less than the original's: it is up only without middle layers,
      and then the list is sorted. */
  method Copy(other: Graph) returns (graph: Graph, m: Naming, ghost back: Naming)
    requires other.Valid()
    ensures fresh(graph) && graph.Valid() && Isomorphic(old(other.Snapshot()), graph.Snapshot(), m, back)
    ensures Partitioned(graph.Snapshot()) && (graph.layersInOrder ==> Sorted(graph.Snapshot()))
    ensures graph.layersInOrder <==> old(other.layersInOrder && OnlyEnds(other.Snapshot()))
  {
    ghost var g := other.Snapshot();
    graph, m, back := CloneLayers(other);
    CopyAllEdges(other, graph, m, back, g);
  }

  /** All connections, into a copy that has none yet. */
  method CopyAllEdges(other: Graph, graph: Graph, m: Naming, ghost back: Naming, ghost g: Net)
    requires other.Valid() && graph.Valid() && other != graph && g == other.Snapshot()
    requires Cloned(g, graph.Snapshot(), m, back, |g.layers|) && (graph.layersInOrder ==> NoMiddle(graph.Snapshot()))
    modifies graph`source, graph`sinks, graph`strategies, graph`overridden
    ensures graph.Valid() && Isomorphic(g, graph.Snapshot(), m, back) && Partitioned(graph.Snapshot())
    ensures graph.layersInOrder ==> Sorted(graph.Snapshot())
  {
    ghost var h := graph.Snapshot();
    AllCloned(g, h, m, back);
    NothingCopied(g, h, m);
    CopyEdges(other, graph, m, back);
    CopyDone(h, graph.Snapshot());
  }

  lemma {:induction false} AllEnds(g: Net)
    requires g.Listed()
    ensures EndsOnly(g, |g.layers|) <==> OnlyEnds(g)
  {
    forall l | l in g.info
      ensures l in g.layers && g.layers[IndexOf(g.layers, l)] == l
    {
    }
  }

  lemma {:induction false} AllCloned(g: Net, h: Net, m: Naming, back: Naming)
    requires g.Listed() && Cloned(g, h, m, back, |g.layers|)
    ensures m.Keys == g.info.Keys
  {
    assert g.layers[..|g.layers|] == g.layers;
  }

  lemma {:induction false} CopyDone(h: Net, h': Net)
    requires h'.Valid() && h'.layers == h.layers && h'.info == h.info && Partitioned(h)
    ensures Partitioned(h')
    ensures NoMiddle(h) ==> Sorted(h')
  {
    assert Ranks(h') == Ranks(h);
    if NoMiddle(h) {
      NoMiddleIsSorted(h');
    }
  }
}
