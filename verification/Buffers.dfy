/**
  Buffer lifetimes by reference counting. The layers are visited in topological order: a tensor handle is
  managed from the visit of the layer that produces it until its last consumer has been visited.
 */
module Buffers {
  import opened Sequences
  import opened NetGraph
  import opened Edges
  import opened Ordering
  import opened Lifetimes
  import opened GraphModel

  /** Parents lead up to a handle without a parent. */
  ghost predicate Descends(parent: map<Handle, Handle>, depth: Handle -> nat) {
    forall h :: h in parent ==> depth(parent[h]) < depth(h)
  }

  /** The tensor handle that a sub-tensor handle is part of. */
  ghost function Root(parent: map<Handle, Handle>, depth: Handle -> nat, h: Handle): Handle
    requires Descends(parent, depth)
    decreases depth(h)
  {
    if h in parent then Root(parent, depth, parent[h]) else h
  }

  /** TraceSubTensorHandleAncestry. */
  method Trace(parent: map<Handle, Handle>, ghost depth: Handle -> nat, h: Handle) returns (r: Handle)
    requires Descends(parent, depth)
    ensures r == Root(parent, depth, h) && r !in parent
  {
    r := h;
    while r in parent
      invariant Root(parent, depth, r) == Root(parent, depth, h)
      decreases depth(r)
    {
      r := parent[r];
    }
  }

  /** The root handle of every output slot that has a handle. */
  ghost function Roots(data: map<OutSlot, Handle>, parent: map<Handle, Handle>, depth: Handle -> nat): (r: map<OutSlot, Handle>)
    requires Descends(parent, depth)
    ensures r.Keys == data.Keys
    ensures forall o :: o in data ==> r[o] == Root(parent, depth, data[o])
  {
    map o | o in data :: Root(parent, depth, data[o])
  }

  /** The slots of s whose handle is part of h. */
  ghost function Carriers(roots: map<OutSlot, Handle>, s: set<OutSlot>, h: Handle): set<OutSlot> {
    set o | o in s && o in roots && roots[o] == h
  }

  /** The edges that carry handle h from a visited producer to a consumer not visited yet. */
  ghost function Pending(g: Net, roots: map<OutSlot, Handle>, outs: set<OutSlot>, ins: set<InSlot>, h: Handle): set<InSlot> {
    Waiting(g, Carriers(roots, outs, h), ins)
  }

  /** The counter of a handle is the number of its pending edges; a handle without a counter has none.
      Handles allocated up front are not counted. */
  ghost predicate CountOK(g: Net, roots: map<OutSlot, Handle>, pre: set<Handle>, counts: map<Handle, nat>,
                          outs: set<OutSlot>, ins: set<InSlot>, h: Handle) {
    if h in pre then h !in counts
    else if h in counts then counts[h] == |Pending(g, roots, outs, ins, h)|
    else Pending(g, roots, outs, ins, h) == {}
  }

  ghost predicate CountsOK(g: Net, roots: map<OutSlot, Handle>, pre: set<Handle>, counts: map<Handle, nat>,
                           outs: set<OutSlot>, ins: set<InSlot>) {
    forall h :: CountOK(g, roots, pre, counts, outs, ins, h)
  }

  /** The walk comes to o: all that comes before o, and nothing else, has been visited. */
  ghost predicate Upcoming(g: Net, outs: set<OutSlot>, ins: set<InSlot>, o: OutSlot) {
    && o !in outs && (forall p :: p in outs ==> Earlier(g, p, o))
    && (forall i :: i in g.source && g.source[i] == o ==> i !in ins)
    && (forall i :: i in g.source ==> (i in ins <==> Pos(g, i.layer) < Pos(g, o.layer)))
  }

  lemma {:induction false} WaitingGrows(g: Net, c: set<OutSlot>, ins: set<InSlot>, o: OutSlot)
    requires g.Linked() && o !in c && forall i :: i in g.source && g.source[i] == o ==> i !in ins
    ensures Waiting(g, c + {o}, ins) == Waiting(g, c, ins) + Elems(g.Sinks(o))
    ensures |Waiting(g, c + {o}, ins)| == |Waiting(g, c, ins)| + |g.Sinks(o)|
  {
    var p, s := Waiting(g, c, ins), Elems(g.Sinks(o));
    assert g.SinksOK(o);
    SinksAreReaders(g, o);
    NoDupCardinality(g.Sinks(o));
    assert Waiting(g, c + {o}, ins) == p + s;
    assert p !! s;
  }

  lemma {:induction false} PendingAfterOutput(g: Net, roots: map<OutSlot, Handle>, outs: set<OutSlot>, ins: set<InSlot>,
                                              o: OutSlot, h: Handle)
    requires g.Linked() && Upcoming(g, outs, ins, o)
    ensures Pending(g, roots, outs + {o}, ins, h) ==
      Pending(g, roots, outs, ins, h) + if o in roots && roots[o] == h then Elems(g.Sinks(o)) else {}
    ensures |Pending(g, roots, outs + {o}, ins, h)| ==
      |Pending(g, roots, outs, ins, h)| + if o in roots && roots[o] == h then |g.Sinks(o)| else 0
  {
    CarriersNext(roots, outs, o, h);
    if o in roots && roots[o] == h {
      WaitingGrows(g, Carriers(roots, outs, h), ins, o);
    }
  }

  lemma {:induction false} CarriersNext(roots: map<OutSlot, Handle>, outs: set<OutSlot>, o: OutSlot, h: Handle)
    ensures o in roots && roots[o] == h ==> Carriers(roots, outs + {o}, h) == Carriers(roots, outs, h) + {o}
    ensures !(o in roots && roots[o] == h) ==> Carriers(roots, outs + {o}, h) == Carriers(roots, outs, h)
  {
  }

  lemma {:induction false} PendingAfterInput(g: Net, roots: map<OutSlot, Handle>, outs: set<OutSlot>, ins: set<InSlot>,
                                             i: InSlot, h: Handle)
    requires i in g.source && g.source[i] in outs && i !in ins
    ensures g.source[i] in roots && roots[g.source[i]] == h <==> Reads(g, Carriers(roots, outs, h), i)
    ensures Pending(g, roots, outs, ins + {i}, h) == Pending(g, roots, outs, ins, h) - {i}
    ensures g.source[i] in roots && roots[g.source[i]] == h ==> i in Pending(g, roots, outs, ins, h)
    ensures |Pending(g, roots, outs, ins + {i}, h)| ==
      |Pending(g, roots, outs, ins, h)| - if g.source[i] in roots && roots[g.source[i]] == h then 1 else 0
  {
    assert Pending(g, roots, outs, ins + {i}, h) == Pending(g, roots, outs, ins, h) - {i};
  }

  /** The events that concern handle h. */
  ghost function For(events: seq<Event>, h: Handle): seq<Event> {
    if events == [] then []
    else
      var e, rest := events[|events| - 1], events[..|events| - 1];
      if e.handle == h then For(rest, h) + [e] else For(rest, h)
  }

  lemma {:induction false} ForNext(events: seq<Event>, e: Event, h: Handle)
    ensures For(events + [e], h) == For(events, h) + if e.handle == h then [e] else []
  {
    assert (events + [e])[..|events|] == events;
  }

  ghost predicate EventsOK(g: Net, roots: map<OutSlot, Handle>, pre: set<Handle>, counts: map<Handle, nat>, events: seq<Event>,
                           outs: set<OutSlot>, ins: set<InSlot>, h: Handle) {
    && (h in pre ==> For(events, h) == [])
    && (h !in pre ==> HistoryOK(g, Carriers(roots, outs, h), ins, h, h in counts, For(events, h)))
  }

  ghost predicate WalkOK(g: Net, roots: map<OutSlot, Handle>, pre: set<Handle>, counts: map<Handle, nat>, events: seq<Event>,
                         outs: set<OutSlot>, ins: set<InSlot>) {
    CountsOK(g, roots, pre, counts, outs, ins) && forall h :: EventsOK(g, roots, pre, counts, events, outs, ins, h)
  }

  /** The counters after output slot o, with handle h, has been visited. */
  function Produced(g: Net, counts: map<Handle, nat>, h: Handle, o: OutSlot): map<Handle, nat> {
    counts[h := (if h in counts then counts[h] else 0) + |g.Sinks(o)|]
  }

  function ProducedEvents(g: Net, counts: map<Handle, nat>, events: seq<Event>, h: Handle, o: OutSlot, k: nat): seq<Event> {
    if h in counts then events
    else if |g.Sinks(o)| == 0 then events + [Manage(h, k)] + [Allocate(h, k)]
    else events + [Manage(h, k)]
  }

  lemma {:induction false} ProducedCounts(g: Net, roots: map<OutSlot, Handle>, pre: set<Handle>, counts: map<Handle, nat>,
                                          outs: set<OutSlot>, ins: set<InSlot>, o: OutSlot)
    requires g.Linked() && Upcoming(g, outs, ins, o) && CountsOK(g, roots, pre, counts, outs, ins)
    ensures o in roots && roots[o] !in pre ==> CountsOK(g, roots, pre, Produced(g, counts, roots[o], o), outs + {o}, ins)
    ensures o !in roots || roots[o] in pre ==> CountsOK(g, roots, pre, counts, outs + {o}, ins)
  {
    var counted := o in roots && roots[o] !in pre;
    var counts', outs' := if counted then Produced(g, counts, roots[o], o) else counts, outs + {o};
    forall h
      ensures CountOK(g, roots, pre, counts', outs', ins, h)
    {
      assert CountOK(g, roots, pre, counts, outs, ins, h);
      PendingAfterOutput(g, roots, outs, ins, o, h);
    }
  }

  lemma {:induction false} ProducedHistory(g: Net, roots: map<OutSlot, Handle>, pre: set<Handle>, counts: map<Handle, nat>,
                                           events: seq<Event>,
                                           outs: set<OutSlot>, ins: set<InSlot>, o: OutSlot, h: Handle)
    requires g.Linked() && Upcoming(g, outs, ins, o) && CountsOK(g, roots, pre, counts, outs, ins)
    requires EventsOK(g, roots, pre, counts, events, outs, ins, h) && o in roots && roots[o] !in pre
    ensures EventsOK(g, roots, pre, Produced(g, counts, roots[o], o), ProducedEvents(g, counts, events, roots[o], o, Pos(g, o.layer)), outs + {o}, ins, h)
  {
    var k, c := Pos(g, o.layer), Carriers(roots, outs, h);
    ForNext(events, Manage(roots[o], k), h);
    ForNext(events + [Manage(roots[o], k)], Allocate(roots[o], k), h);
    CarriersNext(roots, outs, o, h);
    if roots[o] == h {
      HistoryProduced(g, c, ins, h, h in counts, For(events, h), o);
    }
  }

  /** One output slot of the layer at position k, as the walk treats it. */
  lemma {:induction false} OutputVisited(g: Net, roots: map<OutSlot, Handle>, pre: set<Handle>, counts: map<Handle, nat>,
                                         events: seq<Event>,
                                         outs: set<OutSlot>, ins: set<InSlot>, o: OutSlot)
    requires g.Linked() && Upcoming(g, outs, ins, o) && WalkOK(g, roots, pre, counts, events, outs, ins)
    ensures o in roots && roots[o] !in pre ==>
      WalkOK(g, roots, pre, Produced(g, counts, roots[o], o), ProducedEvents(g, counts, events, roots[o], o, Pos(g, o.layer)), outs + {o}, ins)
    ensures o !in roots || roots[o] in pre ==> WalkOK(g, roots, pre, counts, events, outs + {o}, ins)
  {
    ProducedCounts(g, roots, pre, counts, outs, ins, o);
    var outs' := outs + {o};
    if o in roots && roots[o] !in pre {
      var counts', events' := Produced(g, counts, roots[o], o), ProducedEvents(g, counts, events, roots[o], o, Pos(g, o.layer));
      forall h
        ensures EventsOK(g, roots, pre, counts', events', outs', ins, h)
      {
        assert EventsOK(g, roots, pre, counts, events, outs, ins, h);
        ProducedHistory(g, roots, pre, counts, events, outs, ins, o, h);
      }
    } else {
      forall h
        ensures EventsOK(g, roots, pre, counts, events, outs', ins, h)
      {
        assert EventsOK(g, roots, pre, counts, events, outs, ins, h);
        CarriersNext(roots, outs, o, h);
      }
    }
  }

  /** The counters after an edge that carries h has been consumed. */
  function Consumed(counts: map<Handle, nat>, h: Handle): map<Handle, nat>
    requires h in counts && counts[h] > 0
  {
    if counts[h] == 1 then counts - {h} else counts[h := counts[h] - 1]
  }

  function ConsumedEvents(counts: map<Handle, nat>, events: seq<Event>, h: Handle, k: nat): seq<Event>
    requires h in counts
  {
    if counts[h] == 1 then events + [Allocate(h, k)] else events
  }

  /** The counter of a handle about to be consumed exists and is not zero. */
  lemma {:induction false} NoUnderflow(g: Net, roots: map<OutSlot, Handle>, pre: set<Handle>, counts: map<Handle, nat>,
                                       outs: set<OutSlot>, ins: set<InSlot>, i: InSlot)
    requires CountsOK(g, roots, pre, counts, outs, ins) && i in g.source && g.source[i] in outs && i !in ins
    requires g.source[i] in roots && roots[g.source[i]] !in pre
    ensures roots[g.source[i]] in counts && counts[roots[g.source[i]]] > 0
  {
    var h := roots[g.source[i]];
    assert CountOK(g, roots, pre, counts, outs, ins, h) && i in Pending(g, roots, outs, ins, h);
  }

  lemma {:induction false} ConsumedCounts(g: Net, roots: map<OutSlot, Handle>, pre: set<Handle>, counts: map<Handle, nat>,
                                          outs: set<OutSlot>, ins: set<InSlot>, i: InSlot, h: Handle)
    requires CountsOK(g, roots, pre, counts, outs, ins) && i in g.source && g.source[i] in outs && i !in ins
    requires g.source[i] in roots && h == roots[g.source[i]] && h !in pre && h in counts && counts[h] > 0
    ensures CountsOK(g, roots, pre, Consumed(counts, h), outs, ins + {i})
  {
    var counts', ins' := Consumed(counts, h), ins + {i};
    forall x
      ensures CountOK(g, roots, pre, counts', outs, ins', x)
    {
      assert CountOK(g, roots, pre, counts, outs, ins, x);
      PendingAfterInput(g, roots, outs, ins, i, x);
    }
  }

  lemma {:induction false} ConsumedHistory(g: Net, roots: map<OutSlot, Handle>, pre: set<Handle>, counts: map<Handle, nat>,
                                           events: seq<Event>,
                                           outs: set<OutSlot>, ins: set<InSlot>, i: InSlot, r: Handle, k: nat, h: Handle)
    requires i in g.source && g.source[i] in outs && i !in ins && g.source[i] in roots && r == roots[g.source[i]]
    requires CountOK(g, roots, pre, counts, outs, ins, r) && r !in pre && r in counts && counts[r] > 0
    requires (forall j :: j in ins ==> Pos(g, j.layer) <= k) && Pos(g, i.layer) == k
    requires EventsOK(g, roots, pre, counts, events, outs, ins, h)
    ensures EventsOK(g, roots, pre, Consumed(counts, r), ConsumedEvents(counts, events, r, k), outs, ins + {i}, h)
  {
    ForNext(events, Allocate(r, k), h);
    if h == r {
      OwnConsumed(g, roots, pre, counts, events, outs, ins, i, r, k);
    } else if h !in pre {
      PendingAfterInput(g, roots, outs, ins, i, h);
      HistoryFrame(g, Carriers(roots, outs, h), ins, ins + {i}, h, h in counts, For(events, h));
    }
  }

  /** The handle whose reader is visited. */
  lemma {:induction false} OwnConsumed(g: Net, roots: map<OutSlot, Handle>, pre: set<Handle>, counts: map<Handle, nat>, events: seq<Event>,
                                       outs: set<OutSlot>, ins: set<InSlot>, i: InSlot, r: Handle, k: nat)
    requires i in g.source && g.source[i] in outs && i !in ins && g.source[i] in roots && r == roots[g.source[i]]
    requires CountOK(g, roots, pre, counts, outs, ins, r) && r !in pre && r in counts && counts[r] > 0
    requires (forall j :: j in ins ==> Pos(g, j.layer) <= k) && Pos(g, i.layer) == k
    requires EventsOK(g, roots, pre, counts, events, outs, ins, r)
    ensures EventsOK(g, roots, pre, Consumed(counts, r), ConsumedEvents(counts, events, r, k), outs, ins + {i}, r)
  {
    var c := Carriers(roots, outs, r);
    PendingAfterInput(g, roots, outs, ins, i, r);
    ForNext(events, Allocate(r, k), r);
    HistoryConsumed(g, c, ins, r, true, For(events, r), i, k);
    assert |Waiting(g, c, ins + {i})| == counts[r] - 1;
  }

  /** Other readers do not matter. */
  lemma {:induction false} HistoryFrame(g: Net, c: set<OutSlot>, ins: set<InSlot>, ins': set<InSlot>, h: Handle, counted: bool, f: seq<Event>)
    requires HistoryOK(g, c, ins, h, counted, f) && Waiting(g, c, ins') == Waiting(g, c, ins)
    ensures HistoryOK(g, c, ins', h, counted, f)
  {
    forall o | First(g, c, o)
      ensures HistoryFrom(g, c, ins', h, counted, f, o)
    {
      assert HistoryFrom(g, c, ins, h, counted, f, o);
    }
  }

  /** One input slot of the layer at position k, as the walk treats it. */
  lemma {:induction false} InputVisited(g: Net, roots: map<OutSlot, Handle>, pre: set<Handle>, counts: map<Handle, nat>, events: seq<Event>,
                                        outs: set<OutSlot>, ins: set<InSlot>, i: InSlot, k: nat)
    requires g.Linked() && WalkOK(g, roots, pre, counts, events, outs, ins) && i in g.source && g.source[i] in outs && i !in ins
    requires (forall j :: j in ins ==> Pos(g, j.layer) <= k) && Pos(g, i.layer) == k
    ensures g.source[i] in roots && roots[g.source[i]] !in pre ==>
      && roots[g.source[i]] in counts && counts[roots[g.source[i]]] > 0
      && WalkOK(g, roots, pre, Consumed(counts, roots[g.source[i]]), ConsumedEvents(counts, events, roots[g.source[i]], k), outs, ins + {i})
    ensures g.source[i] !in roots || roots[g.source[i]] in pre ==> WalkOK(g, roots, pre, counts, events, outs, ins + {i})
  {
    var ins' := ins + {i};
    if g.source[i] in roots && roots[g.source[i]] !in pre {
      var r := roots[g.source[i]];
      NoUnderflow(g, roots, pre, counts, outs, ins, i);
      ConsumedCounts(g, roots, pre, counts, outs, ins, i, r);
      var counts', events' := Consumed(counts, r), ConsumedEvents(counts, events, r, k);
      forall h
        ensures EventsOK(g, roots, pre, counts', events', outs, ins', h)
      {
        assert EventsOK(g, roots, pre, counts, events, outs, ins, h);
        ConsumedHistory(g, roots, pre, counts, events, outs, ins, i, r, k, h);
      }
    } else {
      forall h
        ensures EventsOK(g, roots, pre, counts, events, outs, ins', h) && CountOK(g, roots, pre, counts, outs, ins', h)
      {
        assert EventsOK(g, roots, pre, counts, events, outs, ins, h) && CountOK(g, roots, pre, counts, outs, ins, h);
        PendingAfterInput(g, roots, outs, ins, i, h);
        if h !in pre {
          HistoryFrame(g, Carriers(roots, outs, h), ins, ins', h, h in counts, For(events, h));
        }
      }
    }
  }

  /** The walk has come to the j-th output slot and the c-th input slot of the layer at position k. */
  ghost predicate Reached(g: Net, outs: set<OutSlot>, ins: set<InSlot>, k: nat, j: nat, c: nat) {
    && (forall o :: o in outs <==> g.IsOut(o) && (Pos(g, o.layer) < k || (Pos(g, o.layer) == k && o.index < j)))
    && (forall i :: i in ins <==> i in g.source && (Pos(g, i.layer) < k || (Pos(g, i.layer) == k && i.index < c)))
  }

  lemma {:induction false} ReachedOutput(g: Net, outs: set<OutSlot>, ins: set<InSlot>, k: nat, j: nat, o: OutSlot)
    requires g.Valid() && Forward(g) && k < |g.layers| && Reached(g, outs, ins, k, j, 0)
    requires o == OutSlot(g.layers[k], j) && g.IsOut(o)
    ensures Upcoming(g, outs, ins, o) && Pos(g, o.layer) == k
    ensures Reached(g, outs + {o}, ins, k, j + 1, 0)
  {
    IndexOfUnique(g.layers, k);
    assert forall l :: l in g.info && Pos(g, l) == k ==> l in g.layers;
  }

  lemma {:induction false} ReachedInput(g: Net, outs: set<OutSlot>, ins: set<InSlot>, k: nat, c: nat, i: InSlot)
    requires g.Valid() && Forward(g) && k < |g.layers| && g.layers[k] in g.info && Reached(g, outs, ins, k, g.info[g.layers[k]].numOut, c)
    requires i == InSlot(g.layers[k], c) && i in g.source
    ensures g.source[i] in outs && i !in ins && Pos(g, i.layer) == k
    ensures forall x :: x in ins ==> Pos(g, x.layer) <= k
    ensures Reached(g, outs, ins + {i}, k, g.info[g.layers[k]].numOut, c + 1)
  {
    IndexOfUnique(g.layers, k);
    assert g.SourceOK(i);
    forall x | x in g.source && Pos(g, x.layer) == k
      ensures x.layer == g.layers[k]
    {
      assert g.SourceOK(x);
      assert x.layer in g.layers;
    }
  }

  lemma {:induction false} ReachedNext(g: Net, outs: set<OutSlot>, ins: set<InSlot>, k: nat)
    requires g.Valid() && k < |g.layers| && g.layers[k] in g.info
    requires Reached(g, outs, ins, k, g.info[g.layers[k]].numOut, g.info[g.layers[k]].numIn)
    ensures Reached(g, outs, ins, k + 1, 0, 0)
  {
    IndexOfUnique(g.layers, k);
    assert forall l :: l in g.info && Pos(g, l) == k ==> l in g.layers;
    forall i | i in g.source
      ensures g.IsIn(i)
    {
      assert g.SourceOK(i);
    }
  }

  /** What the tensors of a graph look like: output slots have data handles, handles have parents. */
  datatype Tensors = Tensors(data: map<OutSlot, Handle>, parent: map<Handle, Handle>)

  /** The bookkeeping of one run: reference counters, and the calls made so far. */
  datatype Run = Run(counts: map<Handle, nat>, events: seq<Event>)

  /** The output slots of the layer at position k. */
  method VisitOutputs(g: Net, t: Tensors, ghost depth: Handle -> nat, pre: set<Handle>, run: Run, k: nat,
                      ghost outs: set<OutSlot>, ghost ins: set<InSlot>)
    returns (run': Run, ghost outs': set<OutSlot>)
    requires g.Valid() && Forward(g) && k < |g.layers| && g.layers[k] in g.info && Descends(t.parent, depth)
    requires WalkOK(g, Roots(t.data, t.parent, depth), pre, run.counts, run.events, outs, ins) && Reached(g, outs, ins, k, 0, 0)
    ensures WalkOK(g, Roots(t.data, t.parent, depth), pre, run'.counts, run'.events, outs', ins)
    ensures Reached(g, outs', ins, k, g.info[g.layers[k]].numOut, 0)
  {
    ghost var roots := Roots(t.data, t.parent, depth);
    run', outs' := run, outs;
    var j := 0;
    while j < g.info[g.layers[k]].numOut
      invariant j <= g.info[g.layers[k]].numOut && Reached(g, outs', ins, k, j, 0)
      invariant WalkOK(g, roots, pre, run'.counts, run'.events, outs', ins)
    {
      var o := OutSlot(g.layers[k], j);
      ReachedOutput(g, outs', ins, k, j, o);
      OutputVisited(g, roots, pre, run'.counts, run'.events, outs', ins, o);
      if o in t.data {
        var h := Trace(t.parent, depth, t.data[o]);
        if h !in pre {
          run' := VisitOutput(g, run', h, o, k);
        }
      }
      outs' := outs' + {o};
      j := j + 1;
    }
  }

  /** A slot whose handle is counted. A handle met for the first time becomes managed. */
  method VisitOutput(g: Net, run: Run, h: Handle, o: OutSlot, k: nat) returns (run': Run)
    ensures run'.counts == Produced(g, run.counts, h, o) && run'.events == ProducedEvents(g, run.counts, run.events, h, o, k)
  {
    var counts, events := run.counts, run.events;
    if h !in counts {
      counts := counts[h := |g.Sinks(o)|];
      events := events + [Manage(h, k)];
      if counts[h] == 0 {
        events := events + [Allocate(h, k)];
      }
    } else {
      counts := counts[h := counts[h] + |g.Sinks(o)|];
    }
    run' := Run(counts, events);
  }

  /** A consumed edge whose handle is counted. */
  method VisitInput(run: Run, h: Handle, k: nat) returns (run': Run)
    requires h in run.counts && run.counts[h] > 0
    ensures run'.counts == Consumed(run.counts, h) && run'.events == ConsumedEvents(run.counts, run.events, h, k)
  {
    var counts, events := run.counts, run.events;
    counts := counts[h := counts[h] - 1];
    if counts[h] == 0 {
      events := events + [Allocate(h, k)];
      counts := counts - {h};
      assert counts == run.counts - {h};
    }
    run' := Run(counts, events);
  }

  /** The input slots of the layer at position k. */
  method VisitInputs(g: Net, t: Tensors, ghost depth: Handle -> nat, pre: set<Handle>, run: Run, k: nat,
                     ghost outs: set<OutSlot>, ghost ins: set<InSlot>)
    returns (run': Run, ghost ins': set<InSlot>)
    requires g.Valid() && Forward(g) && k < |g.layers| && g.layers[k] in g.info && Descends(t.parent, depth)
    requires forall i :: g.IsIn(i) ==> i in g.source
    requires WalkOK(g, Roots(t.data, t.parent, depth), pre, run.counts, run.events, outs, ins)
    requires Reached(g, outs, ins, k, g.info[g.layers[k]].numOut, 0)
    ensures WalkOK(g, Roots(t.data, t.parent, depth), pre, run'.counts, run'.events, outs, ins')
    ensures Reached(g, outs, ins', k, g.info[g.layers[k]].numOut, g.info[g.layers[k]].numIn)
  {
    ghost var roots := Roots(t.data, t.parent, depth);
    run', ins' := run, ins;
    var c := 0;
    while c < g.info[g.layers[k]].numIn
      invariant c <= g.info[g.layers[k]].numIn && Reached(g, outs, ins', k, g.info[g.layers[k]].numOut, c)
      invariant WalkOK(g, roots, pre, run'.counts, run'.events, outs, ins')
    {
      var i := InSlot(g.layers[k], c);
      assert g.IsIn(i);
      ReachedInput(g, outs, ins', k, c, i);
      InputVisited(g, roots, pre, run'.counts, run'.events, outs, ins', i, k);
      if g.source[i] in t.data {
        var h := Trace(t.parent, depth, t.data[g.source[i]]);
        if h !in pre {
          run' := VisitInput(run', h, k);
        }
      }
      ins' := ins' + {i};
      c := c + 1;
    }
  }

  /** The handle behind an output slot of a Constant layer. */
  ghost predicate ConstantHandle(g: Net, roots: map<OutSlot, Handle>, h: Handle) {
    exists o :: o in roots && roots[o] == h && g.IsOut(o) && g.info[o.layer].kind.Constant?
  }

  /** The same for the slots seen so far: the first k layers, and j slots of the next. */
  ghost predicate ConstantSeen(g: Net, roots: map<OutSlot, Handle>, k: nat, j: nat, h: Handle) {
    exists o :: o in roots && roots[o] == h && g.IsOut(o) && g.info[o.layer].kind.Constant?
      && (Pos(g, o.layer) < k || (Pos(g, o.layer) == k && o.index < j))
  }

  ghost predicate Preallocated(g: Net, roots: map<OutSlot, Handle>, upfront: seq<Handle>, k: nat, j: nat) {
    NoDup(upfront) && forall h :: h in upfront <==> ConstantSeen(g, roots, k, j, h)
  }

  lemma {:induction false} ConstantSlot(g: Net, roots: map<OutSlot, Handle>, k: nat, j: nat, o: OutSlot, h: Handle)
    requires g.Valid() && k < |g.layers| && o == OutSlot(g.layers[k], j) && g.IsOut(o) && g.info[o.layer].kind.Constant?
    ensures ConstantSeen(g, roots, k, j + 1, h) <==> ConstantSeen(g, roots, k, j, h) || (o in roots && roots[o] == h)
  {
    IndexOfUnique(g.layers, k);
    assert forall l :: l in g.info && Pos(g, l) == k ==> l in g.layers;
    if ConstantSeen(g, roots, k, j, h) {
      var p :| p in roots && roots[p] == h && g.IsOut(p) && g.info[p.layer].kind.Constant?
        && (Pos(g, p.layer) < k || (Pos(g, p.layer) == k && p.index < j));
      assert Pos(g, p.layer) < k || (Pos(g, p.layer) == k && p.index < j + 1);
    }
    if o in roots && roots[o] == h {
      assert Pos(g, o.layer) == k && o.index < j + 1;
    }
  }

  lemma {:induction false} ConstantLayer(g: Net, roots: map<OutSlot, Handle>, k: nat, h: Handle)
    requires g.Valid() && k < |g.layers| && g.layers[k] in g.info
    ensures var j := if g.info[g.layers[k]].kind.Constant? then g.info[g.layers[k]].numOut else 0;
      ConstantSeen(g, roots, k, j, h) <==> ConstantSeen(g, roots, k + 1, 0, h)
  {
    IndexOfUnique(g.layers, k);
    assert forall l :: l in g.info && Pos(g, l) == k ==> l in g.layers;
    var n := if g.info[g.layers[k]].kind.Constant? then g.info[g.layers[k]].numOut else 0;
    if ConstantSeen(g, roots, k, n, h) {
      var p :| p in roots && roots[p] == h && g.IsOut(p) && g.info[p.layer].kind.Constant?
        && (Pos(g, p.layer) < k || (Pos(g, p.layer) == k && p.index < n));
      assert Pos(g, p.layer) < k + 1;
    }
    if ConstantSeen(g, roots, k + 1, 0, h) {
      var p :| p in roots && roots[p] == h && g.IsOut(p) && g.info[p.layer].kind.Constant?
        && (Pos(g, p.layer) < k + 1 || (Pos(g, p.layer) == k + 1 && p.index < 0));
      assert Pos(g, p.layer) < k || (Pos(g, p.layer) == k && p.index < n);
    }
  }

  /** One handle allocated before the walk, unless it was already. */
  method Preallocate(upfront: seq<Handle>, h: Handle) returns (upfront': seq<Handle>)
    requires NoDup(upfront)
    ensures NoDup(upfront') && forall x :: x in upfront' <==> x in upfront || x == h
  {
    upfront' := upfront;
    if h !in upfront {
      AppendMembers(upfront, h);
      upfront' := upfront + [h];
    }
  }

  /** The output slots of the Constant layer at position k. */
  method PreallocateLayer(g: Net, t: Tensors, ghost depth: Handle -> nat, upfront: seq<Handle>, k: nat) returns (upfront': seq<Handle>)
    requires g.Valid() && k < |g.layers| && g.layers[k] in g.info && g.info[g.layers[k]].kind.Constant? && Descends(t.parent, depth)
    requires Preallocated(g, Roots(t.data, t.parent, depth), upfront, k, 0)
    ensures Preallocated(g, Roots(t.data, t.parent, depth), upfront', k, g.info[g.layers[k]].numOut)
  {
    ghost var roots := Roots(t.data, t.parent, depth);
    upfront' := upfront;
    var j := 0;
    while j < g.info[g.layers[k]].numOut
      invariant j <= g.info[g.layers[k]].numOut && Preallocated(g, roots, upfront', k, j)
    {
      var o := OutSlot(g.layers[k], j);
      ghost var before := upfront';
      if o in t.data {
        var h := Trace(t.parent, depth, t.data[o]);
        upfront' := Preallocate(upfront', h);
      }
      j := j + 1;
      forall h
        ensures h in upfront' <==> ConstantSeen(g, roots, k, j, h)
      {
        ConstantSlot(g, roots, k, j - 1, o, h);
      }
    }
  }

  /** Constants last from the beginning of execution to the end. */
  method PreallocateConstants(g: Net, t: Tensors, ghost depth: Handle -> nat) returns (upfront: seq<Handle>)
    requires g.Valid() && Descends(t.parent, depth)
    ensures NoDup(upfront) && forall h :: h in upfront <==> ConstantHandle(g, Roots(t.data, t.parent, depth), h)
  {
    ghost var roots := Roots(t.data, t.parent, depth);
    upfront := [];
    var k: nat := 0;
    while k < |g.layers|
      invariant k <= |g.layers| && Preallocated(g, roots, upfront, k, 0)
    {
      assert g.layers[k] in g.layers;
      if g.info[g.layers[k]].kind.Constant? {
        upfront := PreallocateLayer(g, t, depth, upfront, k);
      }
      k := k + 1;
      forall h
        ensures h in upfront <==> ConstantSeen(g, roots, k, 0, h)
      {
        ConstantLayer(g, roots, k - 1, h);
      }
    }
    assert forall l :: l in g.info ==> l in g.layers;
    assert forall h :: ConstantSeen(g, roots, k, 0, h) <==> ConstantHandle(g, roots, h);
  }

  /** What a run leaves behind: all counters at zero; a handle of a Constant is allocated once, up front; any other
      handle is managed and allocated once if it has one lifetime, and else more often. */
  ghost predicate RunDone(g: Net, roots: map<OutSlot, Handle>, upfront: seq<Handle>, run: Run) {
    && (forall h :: h in run.counts ==> run.counts[h] == 0)
    && NoDup(upfront) && (forall h :: h in upfront <==> ConstantHandle(g, roots, h))
    && (forall h :: h in upfront ==> For(run.events, h) == [])
    && (forall h :: h !in upfront ==> CallsOK(g, Carriers(roots, roots.Keys, h), h, For(run.events, h)))
  }

  lemma {:induction false} WalkStarts(g: Net, roots: map<OutSlot, Handle>, pre: set<Handle>)
    requires g.Valid()
    ensures WalkOK(g, roots, pre, map[], [], {}, {}) && Reached(g, {}, {}, 0, 0, 0)
  {
  }

  lemma {:induction false} NothingLive(g: Net, roots: map<OutSlot, Handle>, outs: set<OutSlot>, ins: set<InSlot>, h: Handle)
    requires g.Valid() && Reached(g, outs, ins, |g.layers|, 0, 0)
    ensures Pending(g, roots, outs, ins, h) == {}
    ensures forall o :: o in outs <==> g.IsOut(o)
  {
    assert forall l :: l in g.info ==> l in g.layers;
    assert forall i :: i in g.source ==> g.SourceOK(i);
  }

  lemma {:induction false} WalkEnds(g: Net, roots: map<OutSlot, Handle>, upfront: seq<Handle>, run: Run, outs: set<OutSlot>,
                                    ins: set<InSlot>)
    requires g.Valid() && NoDup(upfront) && (forall h :: h in upfront <==> ConstantHandle(g, roots, h)) && (forall o :: o in roots ==> g.IsOut(o))
    requires WalkOK(g, roots, Elems(upfront), run.counts, run.events, outs, ins) && Reached(g, outs, ins, |g.layers|, 0, 0)
    ensures RunDone(g, roots, upfront, run)
  {
    forall h | h in run.counts
      ensures run.counts[h] == 0
    {
      NothingLive(g, roots, outs, ins, h);
      assert CountOK(g, roots, Elems(upfront), run.counts, outs, ins, h);
    }
    forall h | h !in upfront
      ensures CallsOK(g, Carriers(roots, roots.Keys, h), h, For(run.events, h))
    {
      NothingLive(g, roots, outs, ins, h);
      assert EventsOK(g, roots, Elems(upfront), run.counts, run.events, outs, ins, h);
      assert Carriers(roots, outs, h) == Carriers(roots, roots.Keys, h);
      HistoryEnds(g, Carriers(roots, outs, h), ins, h, h in run.counts, For(run.events, h));
    }
    forall h | h in upfront
      ensures For(run.events, h) == []
    {
      assert EventsOK(g, roots, Elems(upfront), run.counts, run.events, outs, ins, h);
    }
  }

  /** Graph::AllocateDynamicBuffers. */
  method AllocateDynamicBuffers(graph: Graph, t: Tensors, ghost depth: Handle -> nat) returns (upfront: seq<Handle>, run: Run)
    requires graph.Valid() && graph.layersInOrder && Sorted(graph.Snapshot()) && Descends(t.parent, depth)
    requires forall i :: graph.Snapshot().IsIn(i) ==> i in graph.source
    requires forall o :: o in t.data ==> graph.Snapshot().IsOut(o)
    ensures RunDone(graph.Snapshot(), Roots(t.data, t.parent, depth), upfront, run)
  {
    var g := graph.Snapshot();
    ghost var roots := Roots(t.data, t.parent, depth);
    upfront := PreallocateConstants(g, t, depth);
    var pre := set h | h in upfront;
    run := Run(map[], []);
    WalkStarts(g, roots, pre);
    ghost var outs: set<OutSlot>, ins: set<InSlot> := {}, {};
    var k: nat := 0;
    while k < |g.layers|
      invariant k <= |g.layers| && Reached(g, outs, ins, k, 0, 0)
      invariant WalkOK(g, roots, pre, run.counts, run.events, outs, ins)
    {
      assert g.layers[k] in g.layers;
      run, outs := VisitOutputs(g, t, depth, pre, run, k, outs, ins);
      run, ins := VisitInputs(g, t, depth, pre, run, k, outs, ins);
      ReachedNext(g, outs, ins, k);
      k := k + 1;
    }
    assert pre == Elems(upfront);
    WalkEnds(g, roots, upfront, run, outs, ins);
  }

  /** No counter exceeds the number of edges, so none wraps around in a graph of fewer than 2^32 edges. */
  lemma {:induction false} CounterBound(g: Net, roots: map<OutSlot, Handle>, pre: set<Handle>, counts: map<Handle, nat>,
                                        outs: set<OutSlot>, ins: set<InSlot>, h: Handle)
    requires CountsOK(g, roots, pre, counts, outs, ins) && h in counts
    ensures counts[h] <= |g.source|
  {
    assert CountOK(g, roots, pre, counts, outs, ins, h);
    SubsetSize(Pending(g, roots, outs, ins, h), g.source.Keys);
  }

  /** The layer 1 has two output slots, of which an Output reads only the second. */
  function SecondRead(): Net {
    Net([0, 1, 2],
        map[0 := LayerInfo(Input, 0, 1, 0, ""), 1 := LayerInfo(Operator(0), 1, 2, 0, ""), 2 := LayerInfo(Output, 1, 0, 0, "")],
        map[InSlot(1, 0) := OutSlot(0, 0), InSlot(2, 0) := OutSlot(1, 1)],
        map[OutSlot(0, 0) := [InSlot(1, 0)], OutSlot(1, 1) := [InSlot(2, 0)]],
        map[OutSlot(0, 0) := [Undefined], OutSlot(1, 1) := [Undefined]],
        map[])
  }

  lemma {:induction false} SecondReadIsListed()
    ensures SecondRead().Listed()
    ensures forall k: nat :: k < 3 ==> Pos(SecondRead(), k) == k
  {
    FromZero(SecondRead().layers);
  }

  lemma {:induction false} SecondReadIsLinked()
    ensures SecondRead().Linked()
  {
    var g := SecondRead();
    forall i
      ensures g.SourceOK(i)
    {
      assert i in g.source ==> i == InSlot(1, 0) || i == InSlot(2, 0);
    }
    forall o
      ensures g.SinksOK(o)
    {
      NoDupIntro(g.Sinks(o));
    }
  }

  lemma {:induction false} SecondReadIsSorted()
    ensures SecondRead().Valid() && Sorted(SecondRead())
  {
    var g := SecondRead();
    SecondReadIsListed();
    SecondReadIsLinked();
    assert Ranks(g) == [0, 1, 2];
    forall i | i in g.source
      ensures Pos(g, g.source[i].layer) < Pos(g, i.layer)
    {
      assert i == InSlot(1, 0) || i == InSlot(2, 0);
    }
  }

  /** If both slots are parts of one tensor, its handle h is allocated twice. */
  lemma {:induction false} AllocatedTwice(h: Handle)
    ensures !OneLifetime(SecondRead(), {OutSlot(1, 0), OutSlot(1, 1)})
    ensures var g := SecondRead();
      var e := ProducedEvents(g, map[], [], h, OutSlot(1, 0), 1);
      var c := Produced(g, map[], h, OutSlot(1, 0));
      var e', c' := ProducedEvents(g, c, e, h, OutSlot(1, 1), 1), Produced(g, c, h, OutSlot(1, 1));
      h in c' && c'[h] == 1 && ConsumedEvents(c', e', h, 2) == [Manage(h, 1), Allocate(h, 1), Allocate(h, 2)]
  {
    var g, s := SecondRead(), {OutSlot(1, 0), OutSlot(1, 1)};
    assert Reads(g, s, InSlot(2, 0));
    assert Earlier(g, OutSlot(1, 0), OutSlot(1, 1));
    assert forall i :: Reads(g, s, i) ==> i == InSlot(2, 0);
    assert !Held(g, s, OutSlot(1, 1));
    assert |g.Sinks(OutSlot(1, 0))| == 0 && |g.Sinks(OutSlot(1, 1))| == 1;
  }
}
