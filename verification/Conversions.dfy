/** A layer that computes in 32-bit floating point in a 16-bit network: conversions before and behind it. */
module Conversions {
  import opened NetGraph
  import opened Evaluation
  import opened Ordering
  import opened Rewrites
  import opened LayerEdits
  import opened GraphModel
  import opened NetworkUtils

  datatype DataType = Float16 | Float32 | Other

  /** The data types of output slots. */
  type Types = map<OutSlot, DataType>

  function UpInfo(): LayerInfo {
    LayerInfo(ConvertUp, 1, 1, 0, "")
  }

  function DownInfo(): LayerInfo {
    LayerInfo(ConvertDown, 1, 1, 0, "")
  }

  /** Layer n of h is new, input slot i reads it, and it reads what i read before. */
  ghost predicate IsUp(g: Net, h: Net, i: InSlot, n: LayerId) {
    && n !in g.info && n in h.info && h.info[n] == UpInfo()
    && i in g.source && i in h.source && h.source[i] == OutSlot(n, 0)
    && InSlot(n, 0) in h.source && h.source[InSlot(n, 0)] == g.source[i]
  }

  ghost predicate Kept(g: Net, h: Net, l: LayerId, ups: Taps, i: InSlot) {
    if i in g.source then
      (i.layer == l && i.index in ups) || (i in h.source && h.source[i] == g.source[i] && h.StrategyOf(i) == g.StrategyOf(i))
    else
      i in h.source ==> i.index == 0 && i.layer in ups.Values
  }

  /** The input slots of l in ups have a new layer each; nothing else has changed. */
  ghost predicate Converted(g: Net, h: Net, l: LayerId, ups: Taps) {
    && KeepsLayers(g, h)
    && (forall n :: n in h.info && n !in g.info ==> n in ups.Values)
    && (forall c :: c in ups ==> IsUp(g, h, InSlot(l, c), ups[c]))
    && (forall i :: Kept(g, h, l, ups, i))
  }

  lemma {:induction false} ConvertedStart(g: Net, l: LayerId)
    ensures Converted(g, g, l, map[])
  {
  }

  lemma {:induction false} UpStays(g: Net, h: Net, h': Net, i: InSlot, n: LayerId, j: InSlot, q: nat, m: LayerId)
    requires g.SourceOK(i) && h.SourceOK(i) && j != i && j.layer in g.info && IsUp(g, h, i, n) && NewBefore(h, h', j, q, m, UpInfo())
    ensures IsUp(g, h', i, n)
  {
  }

  lemma {:induction false} ConvertedNext(g: Net, h: Net, h': Net, l: LayerId, ups: Taps, c: nat, q: nat, m: LayerId)
    requires g.Valid() && h.Linked() && l in g.info && Converted(g, h, l, ups) && c !in ups && InSlot(l, c) in g.source
    requires NewBefore(h, h', InSlot(l, c), q, m, UpInfo())
    ensures Converted(g, h', l, ups[c := m])
  {
    var ups', i := ups[c := m], InSlot(l, c);
    TapValues(ups, c, m);
    assert Kept(g, h, l, ups, i) && g.SourceOK(i) && h.SourceOK(i);
    UpsStay(g, h, h', l, ups, c, q, m);
    AllUps(g, h', l, ups, ups', c, m);
    AllKeptNext(g, h, h', l, ups, ups', c, q, m);
  }

  lemma {:induction false} AllUps(g: Net, h: Net, l: LayerId, ups: Taps, ups': Taps, c: nat, m: LayerId)
    requires (forall d :: d in ups ==> IsUp(g, h, InSlot(l, d), ups[d])) && IsUp(g, h, InSlot(l, c), m) && ups' == ups[c := m]
    ensures forall d :: d in ups' ==> IsUp(g, h, InSlot(l, d), ups'[d])
  {
  }

  lemma {:induction false} AllKeptNext(g: Net, h: Net, h': Net, l: LayerId, ups: Taps, ups': Taps, c: nat, q: nat, m: LayerId)
    requires g.Valid() && Converted(g, h, l, ups) && InSlot(l, c) in h.source && InSlot(l, c) in g.source
    requires ups' == ups[c := m] && ups'.Values == ups.Values + {m} && NewBefore(h, h', InSlot(l, c), q, m, UpInfo())
    ensures forall j :: Kept(g, h', l, ups', j)
  {
    forall j
      ensures Kept(g, h', l, ups', j)
    {
      assert Kept(g, h, l, ups, j) && g.SourceOK(j);
      KeptNext(g, h, h', l, ups, ups', c, q, m, j);
    }
  }

  /** The conversions so far stay, and the new one joins them. */
  lemma {:induction false} UpsStay(g: Net, h: Net, h': Net, l: LayerId, ups: Taps, c: nat, q: nat, m: LayerId)
    requires g.Valid() && h.Linked() && l in g.info && Converted(g, h, l, ups) && c !in ups && InSlot(l, c) in g.source
    requires NewBefore(h, h', InSlot(l, c), q, m, UpInfo())
    ensures forall d :: d in ups ==> IsUp(g, h', InSlot(l, d), ups[d])
    ensures IsUp(g, h', InSlot(l, c), m)
  {
    var i := InSlot(l, c);
    assert Kept(g, h, l, ups, i) && g.SourceOK(i) && h.SourceOK(i);
    forall d | d in ups
      ensures IsUp(g, h', InSlot(l, d), ups[d])
    {
      assert IsUp(g, h, InSlot(l, d), ups[d]) && g.SourceOK(InSlot(l, d)) && h.SourceOK(InSlot(l, d));
      UpStays(g, h, h', InSlot(l, d), ups[d], i, q, m);
    }
  }

  lemma {:induction false} KeptNext(g: Net, h: Net, h': Net, l: LayerId, ups: Taps, ups': Taps, c: nat, q: nat, m: LayerId, j: InSlot)
    requires Kept(g, h, l, ups, j) && KeepsLayers(g, h) && g.SourceOK(j) && InSlot(l, c) in h.source && InSlot(l, c) in g.source
    requires ups' == ups[c := m] && ups'.Values == ups.Values + {m} && NewBefore(h, h', InSlot(l, c), q, m, UpInfo())
    ensures Kept(g, h', l, ups', j)
  {
  }

  /** One more input slot of l gets a conversion. */
  method ConvertInput(graph: Graph, l: LayerId, c: nat, ghost g: Net, ghost ups: Taps) returns (n: LayerId)
    requires graph.Valid() && g.Valid() && l in g.info && InSlot(l, c) in g.source && c !in ups
    requires Converted(g, graph.Snapshot(), l, ups) && (Sorted(g) ==> Sorted(graph.Snapshot()))
    modifies graph`layers, graph`info, graph`nextGuid, graph`inputIds, graph`outputIds, graph`source, graph`sinks, graph`strategies
    ensures graph.Valid() && Converted(g, graph.Snapshot(), l, ups[c := n]) && (Sorted(g) ==> Sorted(graph.Snapshot()))
  {
    ghost var h := graph.Snapshot();
    assert Kept(g, h, l, ups, InSlot(l, c)) && g.SourceOK(InSlot(l, c));
    ghost var r, q;
    n, r, q := graph.InsertNewLayerBefore(InSlot(l, c), UpInfo());
    ConvertedNext(g, h, graph.Snapshot(), l, ups, c, q, n);
  }

  /** The input slots before which a conversion goes: all, or those fed with 16-bit values. */
  predicate NeedsUp(g: Net, types: Types, expectCorrectInputType: bool, i: InSlot) {
    !expectCorrectInputType || (i in g.source && g.source[i] in types && types[g.source[i]].Float16?)
  }

  lemma {:induction false} StillNeedsUp(g: Net, h: Net, l: LayerId, ups: Taps, i: InSlot, types: Types, types': Types, expectCorrectInputType: bool)
    requires Kept(g, h, l, ups, i) && i.layer == l && i.index !in ups && l in g.info && g.SourceOK(i) && (forall n :: n in ups.Values ==> n !in g.info)
    requires NewTyped(g, types, types', ups, Float32)
    ensures NeedsUp(h, types', expectCorrectInputType, i) == NeedsUp(g, types, expectCorrectInputType, i)
  {
  }

  /** The slots of the layers in taps have the given type; those of the layers of g have the types they had. */
  ghost predicate NewTyped(g: Net, types: Types, types': Types, taps: Taps, d: DataType) {
    && (forall c :: c in taps ==> OutSlot(taps[c], 0) in types' && types'[OutSlot(taps[c], 0)] == d)
    && (forall o: OutSlot :: o.layer in g.info ==> (o in types' <==> o in types) && (o in types ==> types'[o] == types[o]))
  }

  /** One input slot of l. */
  method ConvertInputIfNeeded(graph: Graph, l: LayerId, c: nat, expectCorrectInputType: bool, ghost g: Net, ups: Taps, ghost types: Types, now: Types)
    returns (ups': Taps, now': Types)
    requires graph.Valid() && g.Valid() && l in g.info && c < g.info[l].numIn && c !in ups && Converted(g, graph.Snapshot(), l, ups)
    requires (expectCorrectInputType || InSlot(l, c) in g.source) && (Sorted(g) ==> Sorted(graph.Snapshot()))
    requires NewTyped(g, types, now, ups, Float32)
    modifies graph`layers, graph`info, graph`nextGuid, graph`inputIds, graph`outputIds, graph`source, graph`sinks, graph`strategies
    ensures graph.Valid() && Converted(g, graph.Snapshot(), l, ups') && NewTyped(g, types, now', ups', Float32)
    ensures ups'.Keys == if NeedsUp(g, types, expectCorrectInputType, InSlot(l, c)) then ups.Keys + {c} else ups.Keys
    ensures Sorted(g) ==> Sorted(graph.Snapshot())
  {
    SlotStillNeedsUp(g, graph.Snapshot(), l, ups, c, types, now, expectCorrectInputType);
    if !NeedsUp(graph.Snapshot(), now, expectCorrectInputType, InSlot(l, c)) {
      return ups, now;
    }
    var n := ConvertInput(graph, l, c, g, ups);
    ups', now' := ups[c := n], now[OutSlot(n, 0) := Float32];
    UpTyped(g, graph.Snapshot(), l, types, now, ups, c, n);
  }

  lemma {:induction false} SlotStillNeedsUp(g: Net, h: Net, l: LayerId, ups: Taps, c: nat, types: Types, types': Types, expectCorrectInputType: bool)
    requires g.Valid() && Converted(g, h, l, ups) && c !in ups && l in g.info && NewTyped(g, types, types', ups, Float32)
    ensures NeedsUp(h, types', expectCorrectInputType, InSlot(l, c)) == NeedsUp(g, types, expectCorrectInputType, InSlot(l, c))
  {
    UpsAreNew(g, h, l, ups);
    assert Kept(g, h, l, ups, InSlot(l, c)) && g.SourceOK(InSlot(l, c));
    StillNeedsUp(g, h, l, ups, InSlot(l, c), types, types', expectCorrectInputType);
  }

  lemma {:induction false} UpTyped(g: Net, h: Net, l: LayerId, types: Types, now: Types, ups: Taps, c: nat, n: LayerId)
    requires Converted(g, h, l, ups[c := n]) && NewTyped(g, types, now, ups, Float32)
    ensures NewTyped(g, types, now[OutSlot(n, 0) := Float32], ups[c := n], Float32)
  {
    assert ups[c := n][c] == n;
    UpsAreNew(g, h, l, ups[c := n]);
    NewTypedNext(g, types, now, ups, c, n, Float32);
  }

  lemma {:induction false} UpsAreNew(g: Net, h: Net, l: LayerId, ups: Taps)
    requires Converted(g, h, l, ups)
    ensures forall n :: n in ups.Values ==> n !in g.info && n in h.info
    ensures forall c :: c in ups ==> ups[c] in ups.Values
  {
    forall n | n in ups.Values
      ensures n !in g.info && n in h.info
    {
      UpIsNew(g, h, l, ups, n);
    }
  }

  lemma {:induction false} NewTypedNext(g: Net, types: Types, types': Types, taps: Taps, c: nat, n: LayerId, d: DataType)
    requires NewTyped(g, types, types', taps, d) && n !in g.info
    ensures NewTyped(g, types, types'[OutSlot(n, 0) := d], taps[c := n], d)
  {
  }

  /** Slot i reads a new layer of the given kind, which reads what i read. */
  ghost predicate ReadsConversion(g: Net, h: Net, i: InSlot, n: LayerId, kind: LayerType) {
    && n !in g.info && n in h.info && h.info[n].kind == kind && h.info[n].numIn == 1 && h.info[n].numOut == 1
    && i in g.source && i in h.source && h.source[i] == OutSlot(n, 0) && InSlot(n, 0) in h.source && h.source[InSlot(n, 0)] == g.source[i]
  }

  /** With the flag, a slot that reads a 16-bit slot, without it every slot, reads a conversion to 32 bits afterwards; every other
      slot reads what it read. */
  ghost predicate InputConverted(g: Net, h: Net, types: Types, expectCorrectInputType: bool, i: InSlot) {
    if i in g.source && (expectCorrectInputType ==> g.source[i] in types && types[g.source[i]] == Float16)
    then exists n :: ReadsConversion(g, h, i, n, ConvertUp)
    else (i in h.source <==> i in g.source) && (i in g.source ==> h.source[i] == g.source[i] && h.StrategyOf(i) == g.StrategyOf(i))
  }

  lemma {:induction false} InputIsConverted(g: Net, h: Net, l: LayerId, ups: Taps, types: Types, expectCorrectInputType: bool, c: nat)
    requires g.Valid() && Converted(g, h, l, ups) && l in g.info && c < g.info[l].numIn
    requires c in ups <==> NeedsUp(g, types, expectCorrectInputType, InSlot(l, c))
    requires expectCorrectInputType || InSlot(l, c) in g.source
    ensures InputConverted(g, h, types, expectCorrectInputType, InSlot(l, c))
  {
    var i := InSlot(l, c);
    UpsAreNew(g, h, l, ups);
    assert Kept(g, h, l, ups, i) && g.SourceOK(i);
    if c in ups {
      assert IsUp(g, h, i, ups[c]);
      assert ReadsConversion(g, h, i, ups[c], ConvertUp);
    }
  }

  /** No connected input slot of l reads a 16-bit slot. */
  ghost predicate NoneReadsFloat16(h: Net, types: Types, l: LayerId) {
    forall i :: i in h.source && i.layer == l && h.source[i] in types ==> types[h.source[i]] != Float16
  }

  lemma {:induction false} AllRaised(g: Net, h: Net, l: LayerId, ups: Taps, types: Types, types': Types, expectCorrectInputType: bool)
    requires g.Valid() && h.Valid() && Converted(g, h, l, ups) && l in g.info && NewTyped(g, types, types', ups, Float32)
    requires forall c: nat :: c in ups <==> c < g.info[l].numIn && NeedsUp(g, types, expectCorrectInputType, InSlot(l, c))
    requires expectCorrectInputType || forall c: nat :: c < g.info[l].numIn ==> InSlot(l, c) in g.source
    ensures forall c: nat :: c < g.info[l].numIn ==> InputConverted(g, h, types, expectCorrectInputType, InSlot(l, c))
    ensures NoneReadsFloat16(h, types', l)
  {
    UpsAreNew(g, h, l, ups);
    forall c: nat | c < g.info[l].numIn
      ensures InputConverted(g, h, types, expectCorrectInputType, InSlot(l, c))
    {
      InputIsConverted(g, h, l, ups, types, expectCorrectInputType, c);
    }
    forall i | i in h.source && i.layer == l && h.source[i] in types'
      ensures types'[h.source[i]] != Float16
    {
      assert Kept(g, h, l, ups, i) && g.SourceOK(i) && h.SourceOK(i);
      if i.index in ups {
        assert IsUp(g, h, i, ups[i.index]);
      }
    }
  }

  /** InsertConvertFp16ToFp32LayersBefore. Without the flag every input slot has to be connected. */
  method InsertConvertFp16ToFp32LayersBefore(graph: Graph, l: LayerId, types: Types, expectCorrectInputType: bool)
    returns (ups: Taps, types': Types)
    requires graph.Valid() && l in graph.info
    requires expectCorrectInputType || forall c: nat :: c < graph.info[l].numIn ==> InSlot(l, c) in graph.source
    modifies graph`layers, graph`info, graph`nextGuid, graph`inputIds, graph`outputIds, graph`source, graph`sinks, graph`strategies
    ensures graph.Valid() && Converted(old(graph.Snapshot()), graph.Snapshot(), l, ups)
    ensures forall c: nat :: c in ups <==> c < old(graph.info)[l].numIn && NeedsUp(old(graph.Snapshot()), types, expectCorrectInputType, InSlot(l, c))
    ensures forall c: nat :: c < old(graph.info)[l].numIn ==>
      InputConverted(old(graph.Snapshot()), graph.Snapshot(), types, expectCorrectInputType, InSlot(l, c))
    ensures NewTyped(old(graph.Snapshot()), types, types', ups, Float32) && NoneReadsFloat16(graph.Snapshot(), types', l)
    ensures Sorted(old(graph.Snapshot())) ==> Sorted(graph.Snapshot())
  {
    ghost var g := graph.Snapshot();
    ups, types' := map[], types;
    ConvertedStart(g, l);
    var c := 0;
    var slots := graph.info[l].numIn;
    while c < slots
      invariant c <= slots && graph.Valid() && Converted(g, graph.Snapshot(), l, ups)
      invariant UpsUpTo(g, types, expectCorrectInputType, l, ups, c) && NewTyped(g, types, types', ups, Float32)
      invariant Sorted(g) ==> Sorted(graph.Snapshot())
    {
      ghost var before := ups;
      ups, types' := ConvertInputIfNeeded(graph, l, c, expectCorrectInputType, g, ups, types, types');
      UpsNext(g, types, expectCorrectInputType, l, before, ups, c);
      c := c + 1;
    }
    AllRaised(g, graph.Snapshot(), l, ups, types, types', expectCorrectInputType);
  }

  /** Of the first c input slots of l, those that need a conversion have one. */
  ghost predicate UpsUpTo(g: Net, types: Types, expectCorrectInputType: bool, l: LayerId, ups: Taps, c: nat) {
    forall d: nat :: d in ups <==> d < c && NeedsUp(g, types, expectCorrectInputType, InSlot(l, d))
  }

  lemma {:induction false} UpsNext(g: Net, types: Types, expectCorrectInputType: bool, l: LayerId, ups: Taps, ups': Taps, c: nat)
    requires UpsUpTo(g, types, expectCorrectInputType, l, ups, c)
    requires ups'.Keys == if NeedsUp(g, types, expectCorrectInputType, InSlot(l, c)) then ups.Keys + {c} else ups.Keys
    ensures UpsUpTo(g, types, expectCorrectInputType, l, ups', c + 1)
  {
    assert forall d: nat :: d in ups' <==> d in ups'.Keys;
    assert forall d: nat :: d in ups <==> d in ups.Keys;
  }

  /** The 16-bit slots among the first k output slots of l are 32-bit slots now. */
  ghost predicate Retyped(types: Types, types': Types, l: LayerId, k: nat) {
    && types'.Keys == types.Keys
    && forall o :: o in types ==> types'[o] == if o.layer == l && o.index < k && types[o].Float16? then Float32 else types[o]
  }

  /** ChangeOutputFp16ToFp32: the layer's 16-bit output slots become 32-bit ones. */
  method ChangeOutputFp16ToFp32(l: LayerId, numOut: nat, types: Types) returns (types': Types)
    ensures Retyped(types, types', l, numOut)
    ensures forall k: nat :: k < numOut ==> (IsFloat32(types', OutSlot(l, k)) <==> NeedsDown(types, OutSlot(l, k)))
  {
    types' := types;
    var k := 0;
    while k < numOut
      invariant k <= numOut && Retyped(types, types', l, k)
    {
      if OutSlot(l, k) in types' && types'[OutSlot(l, k)].Float16? {
        types' := types'[OutSlot(l, k) := Float32];
      }
      k := k + 1;
    }
  }

  predicate IsFloat32(types: Types, o: OutSlot) {
    o in types && types[o].Float32?
  }

  /** The output slots behind which a conversion goes: those with floating-point values. */
  predicate NeedsDown(types: Types, o: OutSlot) {
    o in types && (types[o].Float16? || types[o].Float32?)
  }

  /** A new layer that lowers to 16 bits is o's only reader and has o's readers. */
  ghost predicate BehindConversion(g: Net, h: Net, o: OutSlot, n: LayerId, kind: LayerType) {
    && n !in g.info && n in h.info && h.info[n].kind == kind && h.info[n].numIn == 1 && h.info[n].numOut == 1
    && InSlot(n, 0) in h.source && h.source[InSlot(n, 0)] == o
    && h.Sinks(o) == [InSlot(n, 0)] && h.Sinks(OutSlot(n, 0)) == g.Sinks(o)
  }

  /** A floating-point slot has 32 bits afterwards and a conversion to 16 bits behind it; any other slot has the type and the readers
      it had. */
  ghost predicate OutputConverted(g: Net, h: Net, types: Types, types': Types, o: OutSlot) {
    if o in types && (types[o] == Float16 || types[o] == Float32) then
      && o in types' && types'[o] == Float32
      && exists n :: BehindConversion(g, h, o, n, ConvertDown) && OutSlot(n, 0) in types' && types'[OutSlot(n, 0)] == Float16
    else h.Sinks(o) == g.Sinks(o) && (o in types' <==> o in types) && (o in types ==> types'[o] == types[o])
  }

  lemma {:induction false} AllLowered(g: Net, h: Net, l: LayerId, downs: Taps, types: Types, mid: Types, types': Types)
    requires l in g.info && Tapped(g, h, l, downs, DownInfo()) && DownsUpTo(types, l, downs, g.info[l].numOut)
    requires Retyped(types, mid, l, g.info[l].numOut) && NewTyped(g, mid, types', downs, Float16)
    ensures forall k: nat :: k < g.info[l].numOut ==> OutputConverted(g, h, types, types', OutSlot(l, k))
  {
    forall k: nat | k < g.info[l].numOut
      ensures OutputConverted(g, h, types, types', OutSlot(l, k))
    {
      var o := OutSlot(l, k);
      assert o in types' <==> o in mid;
      if k in downs {
        assert IsTap(g, h, o, downs[k], DownInfo());
        assert BehindConversion(g, h, o, downs[k], ConvertDown);
      }
    }
  }

  /** InsertConvertFp32ToFp16LayersAfter, before strategies are assigned. */
  method InsertConvertFp32ToFp16LayersAfter(graph: Graph, l: LayerId, types: Types) returns (downs: Taps, types': Types, ghost mid: Types)
    requires graph.Valid() && l in graph.info
    requires forall k: nat :: Unassigned(graph.Snapshot(), OutSlot(l, k))
    modifies graph`layers, graph`info, graph`nextGuid, graph`inputIds, graph`outputIds, graph`source, graph`sinks, graph`strategies
    ensures graph.Valid() && Tapped(old(graph.Snapshot()), graph.Snapshot(), l, downs, DownInfo())
    ensures DownsUpTo(types, l, downs, old(graph.info)[l].numOut) && Retyped(types, mid, l, old(graph.info)[l].numOut)
    ensures NewTyped(old(graph.Snapshot()), mid, types', downs, Float16)
    ensures forall k: nat :: k < old(graph.info)[l].numOut ==>
      OutputConverted(old(graph.Snapshot()), graph.Snapshot(), types, types', OutSlot(l, k))
    ensures Sorted(old(graph.Snapshot())) ==> Sorted(graph.Snapshot())
  {
    var g := graph.Snapshot();
    downs := map[];
    TappedStart(g, l, DownInfo());
    types' := ChangeOutputFp16ToFp32(l, graph.info[l].numOut, types);
    mid := types';
    var k: nat := 0;
    while k < g.info[l].numOut
      invariant k <= g.info[l].numOut && graph.Valid() && Tapped(g, graph.Snapshot(), l, downs, DownInfo())
      invariant DownsUpTo(types, l, downs, k) && NewTyped(g, mid, types', downs, Float16)
      invariant Sorted(g) ==> Sorted(graph.Snapshot())
    {
      downs, types' := ConvertOutput(graph, l, k, types, mid, types', g, downs);
      k := k + 1;
    }
    DownsDone(types, l, downs, k, g.info[l].numOut);
    AllLowered(g, graph.Snapshot(), l, downs, types, mid, types');
  }

  /** The k-th output slot of l. */
  method ConvertOutput(graph: Graph, l: LayerId, k: nat, ghost types: Types, ghost mid: Types, now: Types, ghost g: Net, downs: Taps)
    returns (downs': Taps, now': Types)
    requires graph.Valid() && g.Valid() && l in g.info && k < g.info[l].numOut && Unassigned(g, OutSlot(l, k))
    requires Tapped(g, graph.Snapshot(), l, downs, DownInfo()) && (Sorted(g) ==> Sorted(graph.Snapshot()))
    requires DownsUpTo(types, l, downs, k) && (IsFloat32(mid, OutSlot(l, k)) <==> NeedsDown(types, OutSlot(l, k)))
    requires NewTyped(g, mid, now, downs, Float16)
    modifies graph`layers, graph`info, graph`nextGuid, graph`inputIds, graph`outputIds, graph`source, graph`sinks, graph`strategies
    ensures graph.Valid() && Tapped(g, graph.Snapshot(), l, downs', DownInfo()) && (Sorted(g) ==> Sorted(graph.Snapshot()))
    ensures DownsUpTo(types, l, downs', k + 1) && NewTyped(g, mid, now', downs', Float16)
  {
    assert OutSlot(l, k) in now <==> OutSlot(l, k) in mid;
    if !IsFloat32(now, OutSlot(l, k)) {
      DownSkipped(types, l, downs, k);
      return downs, now;
    }
    var n := Tap(graph, l, k, DownInfo(), g, downs);
    downs', now' := downs[k := n], now[OutSlot(n, 0) := Float16];
    DownAdded(types, l, downs, k, n);
    DownTyped(g, graph.Snapshot(), l, mid, now, downs, k, n);
  }

  lemma {:induction false} DownTyped(g: Net, h: Net, l: LayerId, mid: Types, now: Types, downs: Taps, k: nat, n: LayerId)
    requires Tapped(g, h, l, downs[k := n], DownInfo()) && NewTyped(g, mid, now, downs, Float16)
    ensures NewTyped(g, mid, now[OutSlot(n, 0) := Float16], downs[k := n], Float16)
  {
    assert downs[k := n][k] == n;
    assert n in downs[k := n].Values;
    TapsAreNew(g, h, l, downs[k := n], DownInfo());
    NewTypedNext(g, mid, now, downs, k, n, Float16);
  }

  lemma {:induction false} DownAdded(types: Types, l: LayerId, downs: Taps, k: nat, n: LayerId)
    requires DownsUpTo(types, l, downs, k) && NeedsDown(types, OutSlot(l, k))
    ensures DownsUpTo(types, l, downs[k := n], k + 1)
  {
    assert forall j: nat :: j in downs[k := n] <==> j in downs || j == k;
  }

  lemma {:induction false} DownSkipped(types: Types, l: LayerId, downs: Taps, k: nat)
    requires DownsUpTo(types, l, downs, k) && !NeedsDown(types, OutSlot(l, k))
    ensures DownsUpTo(types, l, downs, k + 1)
  {
  }

  lemma {:induction false} DownsDone(types: Types, l: LayerId, downs: Taps, k: nat, n: nat)
    requires DownsUpTo(types, l, downs, k) && k == n
    ensures DownsUpTo(types, l, downs, n)
  {
  }

  /** Of the first k output slots of l, those that need a conversion have one. */
  ghost predicate DownsUpTo(types: Types, l: LayerId, downs: Taps, k: nat) {
    forall j: nat :: j in downs <==> j < k && NeedsDown(types, OutSlot(l, j))
  }

  /** The values a layer receives once some of its inputs are converted. */
  ghost function Raised(up: Value -> Value, ups: Taps, args: seq<Value>): (r: seq<Value>)
    ensures |r| == |args|
    ensures forall c {:trigger r[c]} :: 0 <= c < |args| ==> r[c] == if c in ups then up(args[c]) else args[c]
  {
    seq(|args|, c requires 0 <= c < |args| => if c in ups then up(args[c]) else args[c])
  }

  function Lowered(down: Value -> Value, downs: Taps, k: nat, v: Value): Value {
    if k in downs then down(v) else v
  }

  /** What the layers compute after the change: every conversion to 32 bits raises, every conversion to 16 bits lowers, the other
      layers compute what they did, and layer l computes, on raised inputs and up to lowering its outputs, what it did. */
  ghost predicate Commutes(g: Net, h: Net, f: Sem, f': Sem, l: LayerId, ups: Taps, downs: Taps, up: Value -> Value, down: Value -> Value)
    requires l in g.info
  {
    && (forall n, args, k :: n in g.info && n != l ==> f'(n, args, k) == f(n, args, k))
    && (forall n, args, k :: n in h.info && h.info[n].kind.ConvertUp? && |args| == 1 ==> f'(n, args, k) == up(args[0]))
    && (forall n, args, k :: n in h.info && h.info[n].kind.ConvertDown? && |args| == 1 ==> f'(n, args, k) == down(args[0]))
    && (forall args, k :: |args| == g.info[l].numIn ==> Lowered(down, downs, k, f'(l, Raised(up, ups, args), k)) == f(l, args, k))
  }

  /** h is g with conversions before some inputs of l and behind some outputs. */
  ghost predicate Wrapped(g: Net, m: Net, h: Net, l: LayerId, ups: Taps, downs: Taps) {
    && g.Linked() && m.Linked() && h.Linked() && l in g.info && !IsIdentity(g.info[l].kind)
    && Converted(g, m, l, ups) && Tapped(m, h, l, downs, DownInfo())
  }

  /** Where the value of an output slot of g is found in h. */
  function Behind(l: LayerId, downs: Taps, o: OutSlot): OutSlot {
    if o.layer == l && o.index in downs then OutSlot(downs[o.index], 0) else o
  }

  /** What a slot of g reads in h. */
  lemma {:induction false} OldSlotReads(g: Net, m: Net, h: Net, l: LayerId, ups: Taps, downs: Taps, i: InSlot)
    requires Wrapped(g, m, h, l, ups, downs) && g.IsIn(i) && !(i.layer == l && i.index in ups)
    ensures i in h.source <==> i in g.source
    ensures i in g.source ==> h.source[i] == Behind(l, downs, g.source[i])
  {
    assert Kept(g, m, l, ups, i) && Retapped(m, h, l, downs, i);
    UpIsNew(g, m, l, ups, i.layer);
    TapIsNew(m, h, l, downs, DownInfo(), i.layer);
  }

  lemma {:induction false} UpIsNew(g: Net, h: Net, l: LayerId, ups: Taps, n: LayerId)
    requires Converted(g, h, l, ups)
    ensures n in ups.Values ==> n !in g.info && n in h.info
  {
    if n in ups.Values {
      var c :| c in ups && ups[c] == n;
      assert IsUp(g, h, InSlot(l, c), ups[c]);
    }
  }

  /** A converted slot reads its conversion, which reads what the slot read. */
  lemma {:induction false} ConvertedSlotReads(g: Net, m: Net, h: Net, l: LayerId, ups: Taps, downs: Taps, c: nat)
    requires Wrapped(g, m, h, l, ups, downs) && c in ups
    ensures var i, n := InSlot(l, c), ups[c];
      && i in g.source && i in h.source && h.source[i] == OutSlot(n, 0) && n !in g.info && n in h.info && h.info[n] == UpInfo()
      && InSlot(n, 0) in h.source && h.source[InSlot(n, 0)] == Behind(l, downs, g.source[i])
  {
    var i, n := InSlot(l, c), ups[c];
    assert IsUp(g, m, i, n) && Retapped(m, h, l, downs, i) && Retapped(m, h, l, downs, InSlot(n, 0));
  }

  /** The values of g found in h. */
  ghost function Found(g: Net, l: LayerId, downs: Taps, w: Assignment): (v: Assignment)
    ensures forall o :: o in v <==> g.IsOut(o) && Behind(l, downs, o) in w
    ensures forall o :: o in v ==> v[o] == w[Behind(l, downs, o)]
  {
    map o | o in OutSlots(g) && Behind(l, downs, o) in w :: w[Behind(l, downs, o)]
  }

  lemma {:induction false} BehindIsOut(g: Net, m: Net, h: Net, l: LayerId, ups: Taps, downs: Taps, o: OutSlot)
    requires Wrapped(g, m, h, l, ups, downs) && g.IsOut(o)
    ensures h.IsOut(Behind(l, downs, o)) && h.IsOut(o) && h.info[o.layer] == g.info[o.layer]
  {
    if o.layer == l && o.index in downs {
      assert IsTap(m, h, OutSlot(l, o.index), downs[o.index], DownInfo());
    }
  }

  /** Without a conversion in between a slot receives what it received. */
  lemma {:induction false} OldArrival(g: Net, m: Net, h: Net, l: LayerId, ups: Taps, downs: Taps, f: Sem, w: Assignment, i: InSlot)
    requires Wrapped(g, m, h, l, ups, downs) && Solves(h, f, w) && g.IsIn(i) && !(i.layer == l && i.index in ups)
    ensures ArgVal(h, w, i) == ArgVal(g, Found(g, l, downs, w), i)
  {
    OldSlotReads(g, m, h, l, ups, downs, i);
    assert g.SourceOK(i);
    if i in g.source {
      BehindIsOut(g, m, h, l, ups, downs, g.source[i]);
    }
  }

  /** A converted slot receives the raised value. */
  lemma {:induction false} RaisedArrival(g: Net, m: Net, h: Net, l: LayerId, ups: Taps, downs: Taps, f: Sem, f': Sem,
                                         up: Value -> Value, down: Value -> Value, w: Assignment, c: nat)
    requires Wrapped(g, m, h, l, ups, downs) && Commutes(g, h, f, f', l, ups, downs, up, down) && Solves(h, f', w)
    requires c in ups && c < g.info[l].numIn
    ensures ArgVal(h, w, InSlot(l, c)) == up(ArgVal(g, Found(g, l, downs, w), InSlot(l, c)))
  {
    var i, n := InSlot(l, c), ups[c];
    ConvertedSlotReads(g, m, h, l, ups, downs, c);
    assert g.SourceOK(i);
    BehindIsOut(g, m, h, l, ups, downs, g.source[i]);
    ConversionOutput(h, f', w, n);
    assert ArgVal(h, w, InSlot(n, 0)) == ArgVal(g, Found(g, l, downs, w), i);
  }

  /** What a conversion puts out. */
  lemma {:induction false} ConversionOutput(h: Net, f: Sem, w: Assignment, n: LayerId)
    requires n in h.info && (h.info[n] == UpInfo() || h.info[n] == DownInfo()) && Solves(h, f, w)
    ensures OutSlot(n, 0) in w && w[OutSlot(n, 0)] == f(n, [ArgVal(h, w, InSlot(n, 0))], 0)
  {
    assert h.IsOut(OutSlot(n, 0)) && SolvesAt(h, f, w, OutSlot(n, 0));
    assert Args(h, w, n) == [ArgVal(h, w, InSlot(n, 0))];
  }

  lemma {:induction false} LoweredOutput(g: Net, m: Net, h: Net, l: LayerId, ups: Taps, downs: Taps, f: Sem, f': Sem,
                                         up: Value -> Value, down: Value -> Value, w: Assignment, k: nat)
    requires Wrapped(g, m, h, l, ups, downs) && Commutes(g, h, f, f', l, ups, downs, up, down) && Solves(h, f', w)
    requires g.IsOut(OutSlot(l, k))
    ensures Behind(l, downs, OutSlot(l, k)) in w && OutSlot(l, k) in w
    ensures w[Behind(l, downs, OutSlot(l, k))] == Lowered(down, downs, k, w[OutSlot(l, k)])
  {
    BehindIsOut(g, m, h, l, ups, downs, OutSlot(l, k));
    assert SolvesAt(h, f', w, OutSlot(l, k));
    if k in downs {
      var n := downs[k];
      assert IsTap(m, h, OutSlot(l, k), n, DownInfo());
      ConversionOutput(h, f', w, n);
    }
  }

  lemma {:induction false} FoundSolves(g: Net, m: Net, h: Net, l: LayerId, ups: Taps, downs: Taps, f: Sem, f': Sem,
                                       up: Value -> Value, down: Value -> Value, w: Assignment)
    requires Wrapped(g, m, h, l, ups, downs) && Commutes(g, h, f, f', l, ups, downs, up, down) && Solves(h, f', w)
    ensures Solves(g, f, Found(g, l, downs, w))
  {
    forall o | g.IsOut(o)
      ensures o in Found(g, l, downs, w) && SolvesAt(g, f, Found(g, l, downs, w), o)
    {
      BehindIsOut(g, m, h, l, ups, downs, o);
      if o.layer == l {
        FoundSolvesAtLayer(g, m, h, l, ups, downs, f, f', up, down, w, o.index);
      } else {
        FoundSolvesElsewhere(g, m, h, l, ups, downs, f, f', up, down, w, o);
      }
    }
  }

  lemma {:induction false} FoundSolvesElsewhere(g: Net, m: Net, h: Net, l: LayerId, ups: Taps, downs: Taps, f: Sem, f': Sem,
                                                up: Value -> Value, down: Value -> Value, w: Assignment, o: OutSlot)
    requires Wrapped(g, m, h, l, ups, downs) && Commutes(g, h, f, f', l, ups, downs, up, down) && Solves(h, f', w)
    requires g.IsOut(o) && o.layer != l
    ensures SolvesAt(g, f, Found(g, l, downs, w), o)
  {
    BehindIsOut(g, m, h, l, ups, downs, o);
    assert SolvesAt(h, f', w, o);
    forall k: nat | k < g.info[o.layer].numIn
      ensures ArgVal(h, w, InSlot(o.layer, k)) == ArgVal(g, Found(g, l, downs, w), InSlot(o.layer, k))
    {
      OldArrival(g, m, h, l, ups, downs, f', w, InSlot(o.layer, k));
    }
    SameArgs(h, w, g, Found(g, l, downs, w), o.layer);
  }

  lemma {:induction false} FoundSolvesAtLayer(g: Net, m: Net, h: Net, l: LayerId, ups: Taps, downs: Taps, f: Sem, f': Sem,
                                              up: Value -> Value, down: Value -> Value, w: Assignment, k: nat)
    requires Wrapped(g, m, h, l, ups, downs) && Commutes(g, h, f, f', l, ups, downs, up, down) && Solves(h, f', w)
    requires g.IsOut(OutSlot(l, k))
    ensures SolvesAt(g, f, Found(g, l, downs, w), OutSlot(l, k))
  {
    var v := Found(g, l, downs, w);
    var args := Args(g, v, l);
    BehindIsOut(g, m, h, l, ups, downs, OutSlot(l, k));
    assert SolvesAt(h, f', w, OutSlot(l, k));
    forall c: nat | c < |args|
      ensures Args(h, w, l)[c] == Raised(up, ups, args)[c]
    {
      if c in ups {
        RaisedArrival(g, m, h, l, ups, downs, f, f', up, down, w, c);
      } else {
        OldArrival(g, m, h, l, ups, downs, f', w, InSlot(l, c));
      }
    }
    assert Args(h, w, l) == Raised(up, ups, args);
    LoweredOutput(g, m, h, l, ups, downs, f, f', up, down, w, k);
  }

  /** If the layer commutes with the conversions, every other layer carries and receives the values it did, and behind the
      conversions the layer's own output values are what they were. */
  lemma {:induction false} ConversionsKeepMeaning(g: Net, m: Net, h: Net, l: LayerId, ups: Taps, downs: Taps, f: Sem, f': Sem,
                                                  up: Value -> Value, down: Value -> Value)
    requires Wrapped(g, m, h, l, ups, downs) && Commutes(g, h, f, f', l, ups, downs, up, down) && Acyclic(g)
    ensures Acyclic(h)
    ensures forall o :: g.IsOut(o) ==> h.IsOut(Behind(l, downs, o)) && Meaning(h, f')[Behind(l, downs, o)] == Meaning(g, f)[o]
    ensures forall n :: n in g.info && g.info[n].numIn > 0 && n != l ==> Reaching(h, f', n) == Reaching(g, f, n)
  {
    WrappedIsAcyclic(g, m, h, l, ups, downs);
    var w := Meaning(h, f');
    FoundSolves(g, m, h, l, ups, downs, f, f', up, down, w);
    MeaningUnique(g, f, Found(g, l, downs, w));
    forall o | g.IsOut(o)
      ensures h.IsOut(Behind(l, downs, o))
    {
      BehindIsOut(g, m, h, l, ups, downs, o);
    }
    forall n | n in g.info && g.info[n].numIn > 0 && n != l
      ensures Reaching(h, f', n) == Reaching(g, f, n)
    {
      OldArrival(g, m, h, l, ups, downs, f', w, InSlot(n, 0));
    }
  }

  /** Ranks for h: a conversion before l ranks just before it, one behind it just behind. */
  ghost function WrappedRank(rank: map<LayerId, nat>, l: LayerId, ups: Taps, n: LayerId): nat
    requires l in rank
  {
    if n in rank then 3 * rank[n] + 1 else if n in ups.Values then 3 * rank[l] else 3 * rank[l] + 2
  }

  lemma {:induction false} WrappedClimbs(g: Net, m: Net, h: Net, l: LayerId, ups: Taps, downs: Taps, rank: map<LayerId, nat>, i: InSlot)
    requires Wrapped(g, m, h, l, ups, downs) && Ranked(g, rank) && i in h.source
    ensures WrappedRank(rank, l, ups, h.source[i].layer) < WrappedRank(rank, l, ups, i.layer)
  {
    assert Retapped(m, h, l, downs, i) && Kept(g, m, l, ups, i);
    TapIsNew(m, h, l, downs, DownInfo(), i.layer);
    UpIsNew(g, m, l, ups, i.layer);
    if i in g.source {
      assert g.SourceOK(i);
      if i.layer == l && i.index in ups {
        ConvertedSlotReads(g, m, h, l, ups, downs, i.index);
        assert ups[i.index] in ups.Values;
      } else {
        OldSlotReads(g, m, h, l, ups, downs, i);
        BehindRank(g, m, h, l, ups, downs, rank, g.source[i]);
      }
    } else if i.layer in ups.Values {
      var c :| c in ups && ups[c] == i.layer;
      ConvertedSlotReads(g, m, h, l, ups, downs, c);
      assert g.SourceOK(InSlot(l, c));
      BehindRank(g, m, h, l, ups, downs, rank, g.source[InSlot(l, c)]);
    }
  }

  lemma {:induction false} BehindRank(g: Net, m: Net, h: Net, l: LayerId, ups: Taps, downs: Taps, rank: map<LayerId, nat>, o: OutSlot)
    requires Wrapped(g, m, h, l, ups, downs) && Ranked(g, rank) && o.layer in g.info
    ensures WrappedRank(rank, l, ups, Behind(l, downs, o).layer) <= 3 * rank[o.layer] + 2
  {
    if o.layer == l && o.index in downs {
      assert IsTap(m, h, OutSlot(l, o.index), downs[o.index], DownInfo());
    }
  }

  lemma {:induction false} WrappedIsAcyclic(g: Net, m: Net, h: Net, l: LayerId, ups: Taps, downs: Taps)
    requires Wrapped(g, m, h, l, ups, downs) && Acyclic(g)
    ensures Acyclic(h)
  {
    var rank: map<LayerId, nat> :| Ranked(g, rank);
    var r := map n | n in h.info :: WrappedRank(rank, l, ups, n);
    forall i | i in h.source
      ensures i.layer in r && h.source[i].layer in r && r[h.source[i].layer] < r[i.layer]
    {
      assert h.SourceOK(i);
      WrappedClimbs(g, m, h, l, ups, downs, rank, i);
    }
    assert Ranked(h, r);
  }
}
