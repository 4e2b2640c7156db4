/**
  How several output slots of a network come to share one tensor. A Splitter makes its outputs parts of the tensor it
  reads; a Concat makes the tensors it reads parts of its own output, if nobody else reads them. Whatever is shared in
  this way has one lifetime.
 */
module Sharing {
  import opened NetGraph
  import opened Ordering
  import opened Lifetimes
  import opened Buffers

  /** up[o] is the slot whose tensor contains that of o. */
  type Parts = map<OutSlot, OutSlot>

  /** An output of a Splitter is part of what the Splitter reads. */
  ghost predicate IsSplit(g: Net, splitters: set<LayerId>, up: Parts, o: OutSlot)
    requires o in up
  {
    o.layer in splitters && InSlot(o.layer, 0) in g.source && g.source[InSlot(o.layer, 0)] == up[o]
  }

  /** What only a Concat reads is part of the Concat's output. */
  ghost predicate IsJoined(g: Net, concats: set<LayerId>, up: Parts, o: OutSlot)
    requires o in up
  {
    |g.Sinks(o)| == 1 && g.Sinks(o)[0].layer in concats && up[o] == OutSlot(g.Sinks(o)[0].layer, 0)
  }

  ghost predicate ByRules(g: Net, splitters: set<LayerId>, concats: set<LayerId>, up: Parts) {
    && splitters !! concats
    && forall o :: o in up ==> IsSplit(g, splitters, up, o) || IsJoined(g, concats, up, o)
  }

  /** The only reader of a joined slot. */
  lemma {:induction false} JoinedReader(g: Net, concats: set<LayerId>, up: Parts, o: OutSlot, i: InSlot)
    requires g.Linked() && o in up && IsJoined(g, concats, up, o) && i in g.source && g.source[i] == o
    ensures i == g.Sinks(o)[0] && i.layer in concats
  {
    assert g.SourceOK(i);
  }

  lemma {:induction false} JoinedForward(g: Net, concats: set<LayerId>, up: Parts, o: OutSlot)
    requires g.Linked() && Forward(g) && o in up && IsJoined(g, concats, up, o)
    ensures g.Sinks(o)[0] in g.source && g.source[g.Sinks(o)[0]] == o
    ensures Pos(g, o.layer) < Pos(g, up[o].layer) && up[o].layer in concats
  {
    assert g.SinksOK(o) && g.Sinks(o)[0] in g.Sinks(o);
  }

  /** Above a joined slot there are only joined ones, above a split one only split ones. */
  lemma {:induction false} SameKindAbove(g: Net, splitters: set<LayerId>, concats: set<LayerId>, up: Parts, o: OutSlot)
    requires g.Linked() && Forward(g) && ByRules(g, splitters, concats, up) && o in up && up[o] in up
    ensures IsJoined(g, concats, up, o) ==> !IsSplit(g, splitters, up, up[o])
    ensures IsSplit(g, splitters, up, o) ==> !IsJoined(g, concats, up, up[o])
  {
    if IsJoined(g, concats, up, o) {
      JoinedForward(g, concats, up, o);
    }
    if IsSplit(g, splitters, up, o) && IsJoined(g, concats, up, up[o]) {
      JoinedReader(g, concats, up, up[o], InSlot(o.layer, 0));
    }
  }

  /** Decreases towards the containing tensors. */
  ghost function Height(g: Net, splitters: set<LayerId>, up: Parts, o: OutSlot): nat {
    if o in up && IsSplit(g, splitters, up, o) then |g.layers| + 1 + Pos(g, o.layer)
    else |g.layers| - Pos(g, o.layer)
  }

  lemma {:induction false} HeightDecreases(g: Net, splitters: set<LayerId>, concats: set<LayerId>, up: Parts, o: OutSlot)
    requires g.Linked() && Forward(g) && ByRules(g, splitters, concats, up) && o in up
    ensures Height(g, splitters, up, up[o]) < Height(g, splitters, up, o)
  {
    assert IsSplit(g, splitters, up, o) || IsJoined(g, concats, up, o);
    if IsSplit(g, splitters, up, o) {
    } else {
      JoinedForward(g, concats, up, o);
      if up[o] in up {
        SameKindAbove(g, splitters, concats, up, o);
      }
    }
  }

  /** The slot whose tensor contains that of o and is part of no other. */
  ghost function Top(g: Net, splitters: set<LayerId>, concats: set<LayerId>, up: Parts, o: OutSlot): (r: OutSlot)
    requires g.Linked() && Forward(g) && ByRules(g, splitters, concats, up)
    ensures r !in up
    decreases Height(g, splitters, up, o)
  {
    if o in up then
      HeightDecreases(g, splitters, concats, up, o);
      Top(g, splitters, concats, up, up[o])
    else o
  }

  ghost predicate Split(g: Net, splitters: set<LayerId>, up: Parts, o: OutSlot) {
    o in up && IsSplit(g, splitters, up, o)
  }

  /** Split slots come after the slot they are part of, joined ones before. */
  lemma {:induction false} AroundTop(g: Net, splitters: set<LayerId>, concats: set<LayerId>, up: Parts, o: OutSlot)
    requires g.Linked() && Forward(g) && ByRules(g, splitters, concats, up) && o in up
    ensures Split(g, splitters, up, o) ==> Pos(g, Top(g, splitters, concats, up, o).layer) < Pos(g, o.layer)
    ensures !Split(g, splitters, up, o) ==> Pos(g, o.layer) < Pos(g, Top(g, splitters, concats, up, o).layer)
    decreases Height(g, splitters, up, o)
  {
    HeightDecreases(g, splitters, concats, up, o);
    if !Split(g, splitters, up, o) {
      JoinedForward(g, concats, up, o);
    }
    if up[o] in up {
      SameKindAbove(g, splitters, concats, up, o);
      AroundTop(g, splitters, concats, up, up[o]);
    }
  }

  /** c holds slots that are all part of the tensor of r, with whatever contains them. */
  ghost predicate SharesWith(g: Net, splitters: set<LayerId>, concats: set<LayerId>, up: Parts, c: set<OutSlot>, r: OutSlot)
    requires g.Linked() && Forward(g) && ByRules(g, splitters, concats, up)
  {
    forall o :: o in c ==> Top(g, splitters, concats, up, o) == r && (o in up ==> up[o] in c)
  }

  /** When an output of a Splitter is visited, the Splitter has not read yet. */
  lemma {:induction false} SplitHeld(g: Net, splitters: set<LayerId>, up: Parts, c: set<OutSlot>, o: OutSlot)
    requires g.Linked() && Forward(g) && Split(g, splitters, up, o) && up[o] in c
    ensures Held(g, c, o)
  {
    assert Reads(g, c, InSlot(o.layer, 0));
  }

  /** As long as the tensor has not been reached from p, the Concat that reads the last slot on the way is to come. */
  lemma {:induction false} JoinedHeld(g: Net, splitters: set<LayerId>, concats: set<LayerId>, up: Parts, c: set<OutSlot>, r: OutSlot,
                                      p: OutSlot, o: OutSlot)
    requires g.Linked() && Forward(g) && ByRules(g, splitters, concats, up) && SharesWith(g, splitters, concats, up, c, r)
    requires p in c && o in c && Earlier(g, p, o) && !Split(g, splitters, up, p) && !Split(g, splitters, up, o)
    ensures Held(g, c, o)
    decreases Height(g, splitters, up, p)
  {
    if o in up {
      AroundTop(g, splitters, concats, up, o);
    }
    assert p in up;
    HeightDecreases(g, splitters, concats, up, p);
    JoinedForward(g, concats, up, p);
    if Earlier(g, up[p], o) {
      if up[p] in up {
        SameKindAbove(g, splitters, concats, up, p);
      }
      JoinedHeld(g, splitters, concats, up, c, r, up[p], o);
    } else {
      assert Reads(g, c, g.Sinks(p)[0]);
    }
  }

  /** Slots that share a tensor by these rules keep it in use from the first to the last of them. */
  lemma {:induction false} SharedIsUnbroken(g: Net, splitters: set<LayerId>, concats: set<LayerId>, up: Parts, c: set<OutSlot>, r: OutSlot)
    requires g.Linked() && Forward(g) && ByRules(g, splitters, concats, up) && SharesWith(g, splitters, concats, up, c, r)
    ensures Unbroken(g, c)
  {
    forall p, o | p in c && o in c && Earlier(g, p, o)
      ensures Held(g, c, o)
    {
      if Split(g, splitters, up, o) {
        SplitHeld(g, splitters, up, c, o);
      } else {
        if o in up { AroundTop(g, splitters, concats, up, o); }
        if p in up { AroundTop(g, splitters, concats, up, p); }
        JoinedHeld(g, splitters, concats, up, c, r, p, o);
      }
    }
  }

  /** The handles as CreateTensorHandles makes them: one for every slot, and a parent exactly for the parts. */
  ghost predicate MadeByRules(g: Net, splitters: set<LayerId>, concats: set<LayerId>, up: Parts, t: Tensors) {
    && ByRules(g, splitters, concats, up)
    && (forall o :: o in t.data <==> g.IsOut(o)) && (forall o :: o in up ==> g.IsOut(o) && g.IsOut(up[o]))
    && (forall o, p :: o in t.data && p in t.data && t.data[o] == t.data[p] ==> o == p)
    && (forall o :: o in t.data ==> ParentOK(up, t, o))
    && (forall h :: h in t.parent ==> exists o :: o in up && o in t.data && t.data[o] == h)
  }

  ghost predicate ParentOK(up: Parts, t: Tensors, o: OutSlot)
    requires o in t.data
  {
    if o in up then up[o] in t.data && t.data[o] in t.parent && t.parent[t.data[o]] == t.data[up[o]]
    else t.data[o] !in t.parent
  }

  lemma {:induction false} RootIsTop(g: Net, splitters: set<LayerId>, concats: set<LayerId>, up: Parts, t: Tensors, depth: Handle -> nat, o: OutSlot)
    requires g.Linked() && Forward(g) && MadeByRules(g, splitters, concats, up, t) && Descends(t.parent, depth) && o in t.data
    ensures Top(g, splitters, concats, up, o) in t.data
    ensures Root(t.parent, depth, t.data[o]) == t.data[Top(g, splitters, concats, up, o)]
    decreases Height(g, splitters, up, o)
  {
    assert ParentOK(up, t, o);
    if o in up {
      HeightDecreases(g, splitters, concats, up, o);
      RootIsTop(g, splitters, concats, up, t, depth, up[o]);
    }
  }

  /** Hence AllocateDynamicBuffers manages and allocates every such handle once. */
  lemma {:induction false} RulesGiveOneLifetime(g: Net, splitters: set<LayerId>, concats: set<LayerId>, up: Parts, t: Tensors,
                                                depth: Handle -> nat, h: Handle)
    requires g.Linked() && Forward(g) && MadeByRules(g, splitters, concats, up, t) && Descends(t.parent, depth)
    ensures var roots := Roots(t.data, t.parent, depth); OneLifetime(g, Carriers(roots, roots.Keys, h))
  {
    var roots := Roots(t.data, t.parent, depth);
    var c := Carriers(roots, roots.Keys, h);
    if c == {} {
      assert Unbroken(g, c);
    } else {
      var p :| p in c;
      forall o | o in c
        ensures Top(g, splitters, concats, up, o) == Top(g, splitters, concats, up, p) && (o in up ==> up[o] in c)
      {
        RootIsTop(g, splitters, concats, up, t, depth, p);
        RootIsTop(g, splitters, concats, up, t, depth, o);
        assert ParentOK(up, t, o);
      }
      SharedIsUnbroken(g, splitters, concats, up, c, Top(g, splitters, concats, up, p));
    }
  }

  /** What a run of AllocateDynamicBuffers does with the handle that contains the tensor of slot o. */
  lemma {:induction false} SharedOnce(g: Net, splitters: set<LayerId>, concats: set<LayerId>, up: Parts, t: Tensors, depth: Handle -> nat,
                                      upfront: seq<Handle>, run: Run, o: OutSlot)
    requires g.Linked() && Forward(g) && MadeByRules(g, splitters, concats, up, t) && Descends(t.parent, depth) && o in t.data
    requires RunDone(g, Roots(t.data, t.parent, depth), upfront, run)
    ensures var h := Root(t.parent, depth, t.data[o]);
      h !in upfront ==> exists s, e: nat :: For(run.events, h) == [Manage(h, s), Allocate(h, e)]
  {
    var roots, h := Roots(t.data, t.parent, depth), Root(t.parent, depth, t.data[o]);
    var c := Carriers(roots, roots.Keys, h);
    assert o in c;
    RulesGiveOneLifetime(g, splitters, concats, up, t, depth, h);
    if h !in upfront {
      OnceExactly(g, c, h, For(run.events, h));
    }
  }

  ghost function DepthOf(g: Net, splitters: set<LayerId>, t: Tensors, up: Parts, h: Handle): nat {
    if o :| o in t.data && t.data[o] == h then Height(g, splitters, up, o) else 0
  }

  lemma {:induction false} DepthOfSlot(g: Net, splitters: set<LayerId>, t: Tensors, up: Parts, o: OutSlot)
    requires o in t.data && forall p :: p in t.data && t.data[p] == t.data[o] ==> p == o
    ensures DepthOf(g, splitters, t, up, t.data[o]) == Height(g, splitters, up, o)
  {
  }

  lemma {:induction false} DepthDecreases(g: Net, splitters: set<LayerId>, concats: set<LayerId>, up: Parts, t: Tensors, h: Handle)
    requires g.Linked() && Forward(g) && MadeByRules(g, splitters, concats, up, t) && h in t.parent
    ensures DepthOf(g, splitters, t, up, t.parent[h]) < DepthOf(g, splitters, t, up, h)
  {
    var o :| o in up && o in t.data && t.data[o] == h;
    assert ParentOK(up, t, o);
    HeightDecreases(g, splitters, concats, up, o);
    DepthOfSlot(g, splitters, t, up, o);
    DepthOfSlot(g, splitters, t, up, up[o]);
  }

  /** Handles made by these rules do lead up to a handle without a parent. */
  lemma {:induction false} RulesDescend(g: Net, splitters: set<LayerId>, concats: set<LayerId>, up: Parts, t: Tensors)
    requires g.Linked() && Forward(g) && MadeByRules(g, splitters, concats, up, t)
    ensures Descends(t.parent, h => DepthOf(g, splitters, t, up, h))
  {
    forall h | h in t.parent
      ensures DepthOf(g, splitters, t, up, t.parent[h]) < DepthOf(g, splitters, t, up, h)
    {
      DepthDecreases(g, splitters, concats, up, t, h);
    }
  }
}
