/** When a rewritten graph means the same as the original. */
module Rewrites {
  import opened NetGraph
  import opened Evaluation

  /** h still has every layer of g, unchanged. */
  ghost predicate KeepsLayers(g: Net, h: Net) {
    forall l :: l in g.info ==> l in h.info && h.info[l] == g.info[l]
  }

  /** Under w, every input slot of g receives in h what it would receive in g. */
  ghost predicate SameArrivals(g: Net, h: Net, w: Assignment) {
    forall i :: g.IsIn(i) ==> ArgVal(h, w, i) == ArgVal(g, w, i)
  }

  /** Whatever the layers compute, the layers of g see the same inputs in h as in g. */
  ghost predicate KeepsMeaning(g: Net, h: Net) {
    && KeepsLayers(g, h)
    && (forall f: Sem, w :: Solves(h, f, w) ==> SameArrivals(g, h, w))
  }

  ghost function Restrict(g: Net, w: Assignment): (v: Assignment)
    ensures forall o :: o in v <==> o in w && g.IsOut(o)
    ensures forall o :: o in v ==> v[o] == w[o]
  {
    map o | o in w && g.IsOut(o) :: w[o]
  }

  lemma {:induction false} RestrictedArrivals(g: Net, w: Assignment, i: InSlot)
    requires g.Linked()
    ensures ArgVal(g, Restrict(g, w), i) == ArgVal(g, w, i)
  {
    assert g.SourceOK(i);
  }

  /** A solution of h, cut down to the slots of g, solves g. */
  lemma {:induction false} RestrictSolves(g: Net, h: Net, f: Sem, w: Assignment)
    requires g.Linked() && KeepsLayers(g, h) && Solves(h, f, w) && SameArrivals(g, h, w)
    ensures Solves(g, f, Restrict(g, w))
  {
    var v := Restrict(g, w);
    forall o | g.IsOut(o)
      ensures o in v && SolvesAt(g, f, v, o)
    {
      assert h.IsOut(o) && SolvesAt(h, f, w, o);
      forall k: nat | k < g.info[o.layer].numIn
        ensures ArgVal(g, v, InSlot(o.layer, k)) == ArgVal(h, w, InSlot(o.layer, k))
      {
        RestrictedArrivals(g, w, InSlot(o.layer, k));
        assert g.IsIn(InSlot(o.layer, k));
      }
      SameArgs(g, v, h, w, o.layer);
    }
  }

  /** Every output slot of g carries the same value in h, and the same value reaches every layer of g. */
  lemma {:induction false} SameMeaning(g: Net, h: Net, f: Sem)
    requires g.Linked() && h.Linked() && Acyclic(g) && Acyclic(h) && KeepsMeaning(g, h)
    ensures forall o :: g.IsOut(o) ==> h.IsOut(o) && Meaning(h, f)[o] == Meaning(g, f)[o]
    ensures forall l :: l in g.info && g.info[l].numIn > 0 ==> Reaching(h, f, l) == Reaching(g, f, l)
  {
    var w := Meaning(h, f);
    RestrictSolves(g, h, f, w);
    MeaningUnique(g, f, Restrict(g, w));
    forall l | l in g.info && g.info[l].numIn > 0
      ensures Reaching(h, f, l) == Reaching(g, f, l)
    {
      assert g.IsIn(InSlot(l, 0));
      RestrictedArrivals(g, w, InSlot(l, 0));
    }
  }

  /** Output slot p belongs to a new layer that passes on what output slot o carries. */
  ghost predicate PassesOn(g: Net, h: Net, p: OutSlot, o: OutSlot) {
    && p.layer !in g.info && h.IsOut(p)
    && IsIdentity(h.info[p.layer].kind) && h.info[p.layer].numIn == 1
    && InSlot(p.layer, 0) in h.source && h.source[InSlot(p.layer, 0)] == o
  }

  ghost predicate SplicedAt(g: Net, h: Net, i: InSlot) {
    if i in g.source then
      i in h.source && (h.source[i] == g.source[i] || PassesOn(g, h, h.source[i], g.source[i]))
    else
      i !in h.source
  }

  /** h is g with new identity layers spliced into some of its edges. */
  ghost predicate Spliced(g: Net, h: Net) {
    && KeepsLayers(g, h)
    && (forall i :: g.IsIn(i) ==> SplicedAt(g, h, i))
    && (forall i :: i in h.source && i.layer !in g.info ==> i.index == 0 && h.source[i].layer in g.info)
  }

  lemma {:induction false} SplicingKeepsMeaning(g: Net, h: Net)
    requires g.Linked() && h.Linked() && Spliced(g, h)
    ensures KeepsMeaning(g, h)
  {
    forall f: Sem, w | Solves(h, f, w)
      ensures SameArrivals(g, h, w)
    {
      forall i | g.IsIn(i)
        ensures ArgVal(h, w, i) == ArgVal(g, w, i)
      {
        SplicedArrival(g, h, f, w, i);
      }
    }
  }

  lemma {:induction false} SplicedArrival(g: Net, h: Net, f: Sem, w: Assignment, i: InSlot)
    requires g.Linked() && h.Linked() && Spliced(g, h) && Solves(h, f, w) && g.IsIn(i)
    ensures ArgVal(h, w, i) == ArgVal(g, w, i)
  {
    assert SplicedAt(g, h, i) && h.SourceOK(i) && g.SourceOK(i);
    if i in g.source && h.source[i] != g.source[i] {
      var p := h.source[i];
      assert SolvesAt(h, f, w, p);
      assert Args(h, w, p.layer)[0] == ArgVal(h, w, InSlot(p.layer, 0));
      assert h.SourceOK(InSlot(p.layer, 0));
    }
  }

  lemma {:induction false} SplicingKeepsAcyclic(g: Net, h: Net)
    requires g.Linked() && h.Linked() && Spliced(g, h) && Acyclic(g)
    ensures Acyclic(h)
  {
    var rank :| Ranked(g, rank);
    var up := map l | l in h.info ::
      if l in g.info then 2 * rank[l]
      else if InSlot(l, 0) in h.source && h.source[InSlot(l, 0)].layer in g.info then 2 * rank[h.source[InSlot(l, 0)].layer] + 1
      else 0;
    forall i | i in h.source
      ensures i.layer in up && h.source[i].layer in up && up[h.source[i].layer] < up[i.layer]
    {
      assert h.SourceOK(i);
      if i.layer in g.info {
        assert g.IsIn(i) && SplicedAt(g, h, i);
      }
    }
    assert Ranked(h, up);
  }
}
