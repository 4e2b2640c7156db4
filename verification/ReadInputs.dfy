/**
  Inputs that somebody reads. The last pass of Optimize over the optimizations erases every layer that nobody reads;
  the compatibility layers leave every remaining Input with a reader. Then Inputs may share memory for whatever list
  of tensors the user gives.
 */
module ReadInputs {
  import opened NetGraph
  import opened Priorities
  import opened Compatibility
  import opened Optimizer
  import opened MemoryProfile
  import opened SharedMemory

  /** Some layer reads what l provides. */
  ghost predicate HasReader(g: Net, l: LayerId) {
    exists i :: i in g.source && g.source[i].layer == l
  }

  /** Every Input is read. */
  ghost predicate InputsRead(g: Net) {
    forall l :: l in g.info && g.info[l].kind.Input? ==> HasReader(g, l)
  }

  lemma {:induction false} InputRead(g: Net, l: LayerId)
    requires g.Valid() && l in g.info && g.info[l].kind.Input? && HasReader(g, l)
    ensures IsRead(g, l)
  {
    var i :| i in g.source && g.source[i].layer == l;
    assert g.SourceOK(i) && g.source[i] == OutSlot(l, 0);
  }

  /** In a pruned graph every layer with output slots is read. */
  lemma {:induction false} PrunedHasReader(g: Net, h: Net, l: LayerId)
    requires g.Valid() && Pruned(g, h) && l in h.info && h.info[l].numOut > 0
    ensures HasReader(h, l)
  {
    var p :| LivePath(g, l, p);
    assert |p| > 1;
    assert IsParent(g, p[0], p[0 + 1]);
    var i :| i in g.source && i.layer == p[1] && g.source[i].layer == p[0];
    assert g.SourceOK(i);
    var q := p[1..];
    forall j | 0 <= j < |q| - 1
      ensures IsParent(g, q[j], q[j + 1])
    {
      assert IsParent(g, p[j + 1], p[j + 1 + 1]);
    }
    assert LivePath(g, p[1], q);
    assert i in h.source;
  }

  lemma {:induction false} PrunedInputsRead(g: Net, h: Net)
    requires g.Valid() && h.Valid() && Pruned(g, h)
    ensures InputsRead(h)
  {
    forall l | l in h.info && h.info[l].kind.Input?
      ensures HasReader(h, l)
    {
      assert h.info[l].WellShaped();
      PrunedHasReader(g, h, l);
    }
  }

  /** Compatibility layers go between an Input and its readers, never in their place. */
  lemma {:induction false} CompatibilityKeepsReaders(g: Net, h: Net, owner: map<LayerId, InSlot>, done: set<InSlot>, l: LayerId)
    requires CompatState(g, h, owner, done) && HasReader(g, l)
    ensures HasReader(h, l)
  {
    var i :| i in g.source && g.source[i].layer == l;
    assert EdgeOK(g, h, owner, done, i);
    if i in done {
      var n := h.source[i].layer;
      assert NewLayerOK(g, h, owner, done, n);
      assert h.source[InSlot(n, 0)] == g.source[i];
    } else {
      assert h.source[i] == g.source[i];
    }
  }

  lemma {:induction false} CompatibilityKeepsInputsRead(g: Net, h: Net, owner: map<LayerId, InSlot>, done: set<InSlot>)
    requires CompatState(g, h, owner, done) && InputsRead(g)
    ensures InputsRead(h)
  {
    forall l | l in h.info && h.info[l].kind.Input?
      ensures HasReader(h, l)
    {
      assert NewLayerOK(g, h, owner, done, l);
      CompatibilityKeepsReaders(g, h, owner, done, l);
    }
  }

  /** If every Input is read, no order in which the user lists the input tensors spoils any of them. */
  lemma {:induction false} ReadInputsAreSafe(g: Net, opts: Options, order: seq<LayerId>)
    requires g.Valid() && InputsRead(g)
    ensures InputsSafe(g, opts, order)
  {
    forall n | 0 <= n < |order| && SharedInput(g, opts, order[n])
      ensures IsRead(g, order[n])
    {
      InputRead(g, order[n]);
    }
  }
}
