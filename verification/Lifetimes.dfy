/**
  What happens to one tensor handle while the layers are visited in topological order. Several output
  slots may carry the handle, because sub-tensors are counted for the tensor that contains them.
 */
module Lifetimes {
  import opened NetGraph
  import opened Edges
  import opened Ordering

  type Handle = nat

  /** A call to ITensorHandle::Manage or Allocate while the layer at a position is visited. */
  datatype Event = Manage(handle: Handle, at: nat) | Allocate(handle: Handle, at: nat)

  /** The walk visits output slot p before output slot o. */
  ghost predicate Earlier(g: Net, p: OutSlot, o: OutSlot) {
    Pos(g, p.layer) < Pos(g, o.layer) || (Pos(g, p.layer) == Pos(g, o.layer) && p.index < o.index)
  }

  /** o is the first of the slots in c. */
  ghost predicate First(g: Net, c: set<OutSlot>, o: OutSlot) {
    o in c && forall p :: p in c ==> !Earlier(g, p, o)
  }

  /** Input slot i reads a slot in c. */
  ghost predicate Reads(g: Net, c: set<OutSlot>, i: InSlot) {
    i in g.source && g.source[i] in c
  }

  ghost predicate NoneRead(g: Net, c: set<OutSlot>) {
    forall i :: !Reads(g, c, i)
  }

  /** When slot o is visited a reader of an earlier slot in c is still to come. */
  ghost predicate Held(g: Net, c: set<OutSlot>, o: OutSlot) {
    exists i :: Reads(g, c, i) && Earlier(g, g.source[i], o) && Pos(g, o.layer) <= Pos(g, i.layer)
  }

  /** Every slot in c but the first finds the handle still in use. */
  ghost predicate Unbroken(g: Net, c: set<OutSlot>) {
    forall p, o :: p in c && o in c && Earlier(g, p, o) ==> Held(g, c, o)
  }

  /** The condition under which a handle carried by the slots in c has one lifetime. */
  ghost predicate OneLifetime(g: Net, c: set<OutSlot>) {
    NoneRead(g, c) || Unbroken(g, c)
  }

  ghost predicate LastRead(g: Net, c: set<OutSlot>, t: nat) {
    && (exists i :: Reads(g, c, i) && Pos(g, i.layer) == t)
    && (forall i :: Reads(g, c, i) ==> Pos(g, i.layer) <= t)
  }

  /** The step of the walk at which the handle is used last: at its first producer if it has no reader. */
  ghost predicate LastUse(g: Net, c: set<OutSlot>, o: OutSlot, t: nat) {
    if NoneRead(g, c) then t == Pos(g, o.layer) else LastRead(g, c, t)
  }

  /** The calls made for h are one Manage, when the first slot is visited, and one Allocate, at the last use. */
  ghost predicate ManagedOnce(g: Net, c: set<OutSlot>, h: Handle, f: seq<Event>, o: OutSlot) {
    exists t: nat :: LastUse(g, c, o, t) && f == [Manage(h, Pos(g, o.layer)), Allocate(h, t)]
  }

  /** The readers that have not been visited. */
  ghost function Waiting(g: Net, c: set<OutSlot>, ins: set<InSlot>): set<InSlot> {
    set i | i in g.source && g.source[i] in c && i !in ins
  }

  /** The calls f made so far for h, when the slots in c and the readers in ins have been visited, o first. */
  ghost predicate HistoryFrom(g: Net, c: set<OutSlot>, ins: set<InSlot>, h: Handle, counted: bool, f: seq<Event>, o: OutSlot) {
    var waiting := Waiting(g, c, ins) != {};
    if NoneRead(g, c) then counted && f == [Manage(h, Pos(g, o.layer)), Allocate(h, Pos(g, o.layer))]
    else if Unbroken(g, c) then
      if waiting then counted && f == [Manage(h, Pos(g, o.layer))] else !counted && ManagedOnce(g, c, h, f, o)
    else
      if waiting then counted && |f| >= 2 else |f| >= 3
  }

  ghost predicate HistoryOK(g: Net, c: set<OutSlot>, ins: set<InSlot>, h: Handle, counted: bool, f: seq<Event>) {
    && (c == {} ==> !counted && f == [])
    && (forall o :: First(g, c, o) ==> HistoryFrom(g, c, ins, h, counted, f, o))
  }

  /** The walk has visited the slots in c and the readers in ins, and comes to slot o. */
  ghost predicate Next(g: Net, c: set<OutSlot>, ins: set<InSlot>, o: OutSlot) {
    && o !in c && (forall p :: p in c ==> Earlier(g, p, o))
    && (forall i :: i in g.source && g.source[i] == o ==> i !in ins)
    && (forall i :: Reads(g, c, i) ==> (i in ins <==> Pos(g, i.layer) < Pos(g, o.layer)))
  }

  function ProducedFor(g: Net, h: Handle, counted: bool, f: seq<Event>, o: OutSlot, k: nat): seq<Event> {
    if counted then f
    else if |g.Sinks(o)| == 0 then f + [Manage(h, k)] + [Allocate(h, k)]
    else f + [Manage(h, k)]
  }

  /** The next slot finds a handle in use exactly if a reader is waiting. */
  lemma {:induction false} HeldIfWaiting(g: Net, c: set<OutSlot>, ins: set<InSlot>, o: OutSlot)
    requires Next(g, c, ins, o)
    ensures Held(g, c + {o}, o) <==> Waiting(g, c, ins) != {}
  {
    if Held(g, c + {o}, o) {
      var i :| Reads(g, c + {o}, i) && Earlier(g, g.source[i], o) && Pos(g, o.layer) <= Pos(g, i.layer);
      assert Reads(g, c, i) && i in Waiting(g, c, ins);
    }
    if Waiting(g, c, ins) != {} {
      var i :| i in Waiting(g, c, ins);
      assert Reads(g, c, i) && Reads(g, c + {o}, i);
    }
  }

  /** Visiting slot o changes nothing about the slots before. */
  lemma {:induction false} HeldStays(g: Net, c: set<OutSlot>, ins: set<InSlot>, o: OutSlot, p: OutSlot)
    requires Next(g, c, ins, o) && p in c
    ensures Held(g, c + {o}, p) <==> Held(g, c, p)
  {
    if Held(g, c, p) {
      var i :| Reads(g, c, i) && Earlier(g, g.source[i], p) && Pos(g, p.layer) <= Pos(g, i.layer);
      assert Reads(g, c + {o}, i);
    }
    if Held(g, c + {o}, p) {
      var i :| Reads(g, c + {o}, i) && Earlier(g, g.source[i], p) && Pos(g, p.layer) <= Pos(g, i.layer);
      assert g.source[i] != o;
      assert Reads(g, c, i);
    }
  }

  lemma {:induction false} UnbrokenNext(g: Net, c: set<OutSlot>, ins: set<InSlot>, o: OutSlot)
    requires Next(g, c, ins, o) && c != {}
    ensures Unbroken(g, c + {o}) <==> Unbroken(g, c) && Waiting(g, c, ins) != {}
  {
    HeldIfWaiting(g, c, ins, o);
    if Unbroken(g, c + {o}) {
      UnbrokenBefore(g, c, ins, o);
    } else if Unbroken(g, c) && Waiting(g, c, ins) != {} {
      var p, r :| p in c + {o} && r in c + {o} && Earlier(g, p, r) && !Held(g, c + {o}, r);
      assert r in c && p in c;
      HeldStays(g, c, ins, o, r);
    }
  }

  lemma {:induction false} UnbrokenBefore(g: Net, c: set<OutSlot>, ins: set<InSlot>, o: OutSlot)
    requires Next(g, c, ins, o) && c != {} && Unbroken(g, c + {o})
    ensures Unbroken(g, c) && Held(g, c + {o}, o)
  {
    var q :| q in c;
    assert q in c + {o} && o in c + {o} && Earlier(g, q, o);
    forall p, r | p in c && r in c && Earlier(g, p, r)
      ensures Held(g, c, r)
    {
      assert p in c + {o} && r in c + {o};
      HeldStays(g, c, ins, o, r);
    }
  }

  lemma {:induction false} NoneReadNext(g: Net, c: set<OutSlot>, o: OutSlot)
    requires g.Linked()
    ensures NoneRead(g, c + {o}) <==> NoneRead(g, c) && g.Sinks(o) == []
  {
    SinksAreReaders(g, o);
    assert g.SinksOK(o);
    if NoneRead(g, c + {o}) {
      forall i
        ensures !Reads(g, c, i)
      {
        assert !Reads(g, c + {o}, i);
      }
      if g.Sinks(o) != [] {
        assert g.Sinks(o)[0] in g.Sinks(o);
        assert Reads(g, c + {o}, g.Sinks(o)[0]);
      }
    }
    if NoneRead(g, c) && g.Sinks(o) == [] {
      forall i
        ensures !Reads(g, c + {o}, i)
      {
        assert !Reads(g, c, i);
      }
    }
  }

  lemma {:induction false} WaitingNext(g: Net, c: set<OutSlot>, ins: set<InSlot>, o: OutSlot)
    requires g.Linked() && Next(g, c, ins, o)
    ensures Waiting(g, c + {o}, ins) != {} <==> Waiting(g, c, ins) != {} || g.Sinks(o) != []
  {
    SinksAreReaders(g, o);
    assert g.SinksOK(o);
    if g.Sinks(o) != [] {
      assert g.Sinks(o)[0] in g.Sinks(o);
      assert g.Sinks(o)[0] in Waiting(g, c + {o}, ins);
    }
    if Waiting(g, c, ins) != {} {
      var i :| i in Waiting(g, c, ins);
      assert i in Waiting(g, c + {o}, ins);
    }
    if Waiting(g, c + {o}, ins) != {} {
      var i :| i in Waiting(g, c + {o}, ins);
      assert i !in Waiting(g, c, ins) ==> i in g.Sinks(o);
    }
  }

  lemma {:induction false} NoneReadNoneWaiting(g: Net, c: set<OutSlot>, ins: set<InSlot>)
    ensures NoneRead(g, c) ==> Waiting(g, c, ins) == {}
  {
    assert forall i :: i in Waiting(g, c, ins) ==> Reads(g, c, i);
  }

  /** The first slot. */
  lemma {:induction false} HistoryStarts(g: Net, ins: set<InSlot>, h: Handle, o: OutSlot)
    requires g.Linked() && Next(g, {}, ins, o)
    ensures HistoryOK(g, {o}, ins, h, true, ProducedFor(g, h, false, [], o, Pos(g, o.layer)))
  {
    var c: set<OutSlot> := {};
    assert c + {o} == {o};
    NoneReadNext(g, c, o);
    WaitingNext(g, c, ins, o);
    assert NoneRead(g, c);
    assert Unbroken(g, {o});
  }

  /** A further slot. */
  lemma {:induction false} HistoryProduced(g: Net, c: set<OutSlot>, ins: set<InSlot>, h: Handle, counted: bool, f: seq<Event>, o: OutSlot)
    requires g.Linked() && Next(g, c, ins, o) && HistoryOK(g, c, ins, h, counted, f)
    ensures HistoryOK(g, c + {o}, ins, h, true, ProducedFor(g, h, counted, f, o, Pos(g, o.layer)))
  {
    if c == {} {
      HistoryStarts(g, ins, h, o);
      assert c + {o} == {o};
    } else {
      NoneReadNext(g, c, o);
      WaitingNext(g, c, ins, o);
      UnbrokenNext(g, c, ins, o);
      NoneReadNoneWaiting(g, c, ins);
      var f' := ProducedFor(g, h, counted, f, o, Pos(g, o.layer));
      forall p | First(g, c + {o}, p)
        ensures HistoryFrom(g, c + {o}, ins, h, true, f', p)
      {
        FirstStays(g, c, ins, o, p);
        assert HistoryFrom(g, c, ins, h, counted, f, p);
      }
    }
  }

  lemma {:induction false} FirstStays(g: Net, c: set<OutSlot>, ins: set<InSlot>, o: OutSlot, p: OutSlot)
    requires Next(g, c, ins, o) && c != {} && First(g, c + {o}, p)
    ensures First(g, c, p)
  {
    var q :| q in c;
    assert q in c + {o} && Earlier(g, q, o);
    forall r | r in c
      ensures !Earlier(g, r, p)
    {
      assert r in c + {o};
    }
  }

  /** A reader is visited; the handle is allocated when none is left. */
  lemma {:induction false} HistoryConsumed(g: Net, c: set<OutSlot>, ins: set<InSlot>, h: Handle, counted: bool, f: seq<Event>,
                                           i: InSlot, k: nat)
    requires HistoryOK(g, c, ins, h, counted, f) && Reads(g, c, i) && i !in ins
    requires (forall j :: j in ins ==> Pos(g, j.layer) <= k) && Pos(g, i.layer) == k
    ensures Waiting(g, c, ins + {i}) == {} ==> HistoryOK(g, c, ins + {i}, h, false, f + [Allocate(h, k)])
    ensures Waiting(g, c, ins + {i}) != {} ==> HistoryOK(g, c, ins + {i}, h, true, f)
  {
    assert i in Waiting(g, c, ins);
    assert !NoneRead(g, c);
    if Waiting(g, c, ins + {i}) == {} {
      AllRead(g, c, ins, i, k);
      forall o | First(g, c, o)
        ensures HistoryFrom(g, c, ins + {i}, h, false, f + [Allocate(h, k)], o)
      {
        assert HistoryFrom(g, c, ins, h, counted, f, o);
        if Unbroken(g, c) {
          assert LastUse(g, c, o, k);
        }
      }
    } else {
      forall o | First(g, c, o)
        ensures HistoryFrom(g, c, ins + {i}, h, true, f, o)
      {
        assert HistoryFrom(g, c, ins, h, counted, f, o);
      }
    }
  }

  lemma {:induction false} AllRead(g: Net, c: set<OutSlot>, ins: set<InSlot>, i: InSlot, k: nat)
    requires Reads(g, c, i) && Waiting(g, c, ins + {i}) == {}
    requires (forall j :: j in ins ==> Pos(g, j.layer) <= k) && Pos(g, i.layer) == k
    ensures LastRead(g, c, k)
  {
    forall j | Reads(g, c, j)
      ensures Pos(g, j.layer) <= k
    {
      assert j !in Waiting(g, c, ins + {i});
    }
  }

  /** The calls made for a handle over the whole walk: one Manage and one Allocate if it has one lifetime, more calls if not. */
  ghost predicate CallsOK(g: Net, c: set<OutSlot>, h: Handle, f: seq<Event>) {
    && (c == {} ==> f == [])
    && (forall o :: First(g, c, o) ==> if OneLifetime(g, c) then ManagedOnce(g, c, h, f, o) else |f| > 2)
  }

  lemma {:induction false} HistoryEnds(g: Net, c: set<OutSlot>, ins: set<InSlot>, h: Handle, counted: bool, f: seq<Event>)
    requires HistoryOK(g, c, ins, h, counted, f) && Waiting(g, c, ins) == {}
    ensures CallsOK(g, c, h, f)
  {
    forall o | First(g, c, o)
      ensures if OneLifetime(g, c) then ManagedOnce(g, c, h, f, o) else |f| > 2
    {
      assert HistoryFrom(g, c, ins, h, counted, f, o);
      if NoneRead(g, c) {
        assert LastUse(g, c, o, Pos(g, o.layer));
      }
    }
  }

  /** Some slot is first. */
  lemma {:induction false} SomeFirst(g: Net, c: set<OutSlot>, p: OutSlot) returns (o: OutSlot)
    requires p in c
    ensures First(g, c, o)
    decreases Pos(g, p.layer), p.index
  {
    o := p;
    if !First(g, c, p) {
      var q :| q in c && Earlier(g, q, p);
      o := SomeFirst(g, c, q);
    }
  }

  /** A handle that some slot carries is managed once and allocated once if and only if it has one lifetime. */
  lemma {:induction false} OnceExactly(g: Net, c: set<OutSlot>, h: Handle, f: seq<Event>)
    requires c != {} && CallsOK(g, c, h, f)
    ensures (exists s, t: nat :: f == [Manage(h, s), Allocate(h, t)]) <==> OneLifetime(g, c)
  {
    var p :| p in c;
    var o := SomeFirst(g, c, p);
    if OneLifetime(g, c) {
      var t: nat :| LastUse(g, c, o, t) && f == [Manage(h, Pos(g, o.layer)), Allocate(h, t)];
    }
  }

  /** A handle that one slot carries has one lifetime. */
  lemma {:induction false} AloneOnce(g: Net, o: OutSlot, h: Handle, f: seq<Event>)
    requires CallsOK(g, {o}, h, f)
    ensures ManagedOnce(g, {o}, h, f, o)
  {
    assert First(g, {o}, o) && Unbroken(g, {o});
  }

  /** If nobody reads the first slot but somebody reads another one, the handle is allocated when the
      first slot is visited and again later. */
  lemma {:induction false} UnreadFirst(g: Net, c: set<OutSlot>, h: Handle, f: seq<Event>, o: OutSlot, i: InSlot)
    requires g.Listed() && (forall p :: p in c ==> g.IsOut(p)) && CallsOK(g, c, h, f)
    requires First(g, c, o) && Reads(g, c, i) && forall j :: j in g.source ==> g.source[j] != o
    ensures !OneLifetime(g, c) && |f| > 2
  {
    var p := SomeFirst(g, c - {o}, g.source[i]);
    assert p in c && o in c && Earlier(g, o, p) by {
      assert o.layer in g.layers && p.layer in g.layers;
    }
    forall j | Reads(g, c, j)
      ensures !Earlier(g, g.source[j], p)
    {
      assert g.source[j] in c - {o};
    }
  }
}
