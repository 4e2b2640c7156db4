/** The views of a concatenation: where each input starts in the output. */
module Concatenation {
  import opened Unsigned
  import opened GraphModel

  type Shape = seq<nat>

  /** Numbers of views and dimensions, and the origin of each view. */
  class OriginsDescriptor {
    const numViews: nat
    const numDimensions: nat
    var concatAxis: nat
    const origins: array2<nat>

    ghost predicate Valid()
      reads this
    {
      origins.Length0 == numViews && origins.Length1 == numDimensions
    }

    constructor (numViews: nat, numDimensions: nat)
      ensures Valid() && fresh(origins) && this.numViews == numViews && this.numDimensions == numDimensions
      ensures forall v, d :: 0 <= v < numViews && 0 <= d < numDimensions ==> origins[v, d] == 0
    {
      this.numViews, this.numDimensions, concatAxis := numViews, numDimensions, 1;
      origins := new nat[numViews, numDimensions]((v, d) => 0);
    }

    /** Fails, changing nothing, when the view or the coordinate is out of range. */
    method SetViewOriginCoord(view: nat, coord: nat, value: nat) returns (ok: bool)
      requires Valid()
      modifies origins
      ensures ok <==> view < numViews && coord < numDimensions
      ensures forall v, d :: 0 <= v < numViews && 0 <= d < numDimensions ==>
        origins[v, d] == if ok && v == view && d == coord then value else old(origins[v, d])
    {
      if view >= numViews || coord >= numDimensions {
        return false;
      }
      origins[view, coord] := value;
      return true;
    }
  }

  /** The inputs can be concatenated along an axis: two or more, alike in all other dimensions. */
  ghost predicate Concatenable(shapes: seq<Shape>, axis: nat) {
    && |shapes| >= 2
    && (forall v :: 0 <= v < |shapes| ==> |shapes[v]| == |shapes[0]|)
    && axis < |shapes[0]|
    && (forall v, d :: 0 <= v < |shapes| && 0 <= d < |shapes[0]| && d != axis ==> shapes[v][d] == shapes[0][d])
  }

  /** The sizes along the axis of the first n inputs, added up. */
  ghost function Extent(shapes: seq<Shape>, axis: nat, n: nat): nat
    requires n <= |shapes| && forall v :: 0 <= v < |shapes| ==> axis < |shapes[v]|
  {
    if n == 0 then 0 else Extent(shapes, axis, n - 1) + shapes[n - 1][axis]
  }

  /** The checks of CreateDescriptorForConcatenation. */
  method Check(shapes: seq<Shape>, axis: nat) returns (ok: bool)
    ensures ok <==> Concatenable(shapes, axis)
  {
    if |shapes| < 2 {
      return false;
    }
    var n := 1;
    while n < |shapes|
      invariant 1 <= n <= |shapes| && forall v :: 0 <= v < n ==> |shapes[v]| == |shapes[0]|
    {
      if |shapes[n]| != |shapes[0]| {
        return false;
      }
      n := n + 1;
    }
    if axis >= |shapes[0]| {
      return false;
    }
    n := 0;
    while n < |shapes|
      invariant n <= |shapes| && forall v, d :: 0 <= v < n && 0 <= d < |shapes[0]| && d != axis ==> shapes[v][d] == shapes[0][d]
    {
      var d := 0;
      while d < |shapes[0]|
        invariant d <= |shapes[0]| && forall e :: 0 <= e < d && e != axis ==> shapes[n][e] == shapes[0][e]
      {
        if d != axis && shapes[0][d] != shapes[n][d] {
          return false;
        }
        d := d + 1;
      }
      n := n + 1;
    }
    return true;
  }

  /** Where view v starts in dimension d; the running sum is an unsigned int. */
  ghost function OriginAt(shapes: seq<Shape>, axis: nat, v: nat, d: nat): nat
    requires v <= |shapes| && forall v :: 0 <= v < |shapes| ==> axis < |shapes[v]|
  {
    if d == axis then Extent(shapes, axis, v) % UINT else 0
  }

  ghost predicate RowDone(o: array2<nat>, shapes: seq<Shape>, axis: nat, v: nat)
    requires v <= |shapes| && (forall w :: 0 <= w < |shapes| ==> axis < |shapes[w]|) && v < o.Length0
    reads o
  {
    forall d :: 0 <= d < o.Length1 ==> o[v, d] == OriginAt(shapes, axis, v, d)
  }

  /** The coordinates of one view. */
  method SetView(descriptor: OriginsDescriptor, shapes: seq<Shape>, axis: nat, v: nat, coord: nat)
    requires descriptor.Valid() && v < |shapes| == descriptor.numViews && axis < descriptor.numDimensions
    requires (forall w :: 0 <= w < |shapes| ==> axis < |shapes[w]|) && coord == Extent(shapes, axis, v) % UINT
    modifies descriptor.origins
    ensures RowDone(descriptor.origins, shapes, axis, v)
    ensures forall w, d :: 0 <= w < |shapes| && w != v && 0 <= d < descriptor.numDimensions ==> descriptor.origins[w, d] == old(descriptor.origins[w, d])
    ensures forall w :: 0 <= w < |shapes| && w != v && old(RowDone(descriptor.origins, shapes, axis, w)) ==> RowDone(descriptor.origins, shapes, axis, w)
  {
    var n := 0;
    while n < axis
      invariant n <= axis
      invariant forall d :: 0 <= d < n ==> descriptor.origins[v, d] == 0
      invariant forall w, d :: 0 <= w < |shapes| && w != v && 0 <= d < descriptor.numDimensions ==> descriptor.origins[w, d] == old(descriptor.origins[w, d])
    {
      var ok := descriptor.SetViewOriginCoord(v, n, 0);
      n := n + 1;
    }
    var ok := descriptor.SetViewOriginCoord(v, axis, coord);
    n := axis + 1;
    while n < descriptor.numDimensions
      invariant axis < n <= descriptor.numDimensions
      invariant forall d :: 0 <= d < n ==> descriptor.origins[v, d] == OriginAt(shapes, axis, v, d)
      invariant forall w, d :: 0 <= w < |shapes| && w != v && 0 <= d < descriptor.numDimensions ==> descriptor.origins[w, d] == old(descriptor.origins[w, d])
    {
      ok := descriptor.SetViewOriginCoord(v, n, 0);
      n := n + 1;
    }
  }

  /** CreateDescriptorForConcatenation. */
  method CreateDescriptorForConcatenation(shapes: seq<Shape>, axis: nat) returns (r: Result<OriginsDescriptor>)
    ensures r.Ok? <==> Concatenable(shapes, axis)
    ensures r.Ok? ==> fresh(r.value) && r.value.Valid() && r.value.concatAxis == axis
    ensures r.Ok? ==> r.value.numViews == |shapes| && r.value.numDimensions == |shapes[0]|
    ensures r.Ok? ==> forall v :: 0 <= v < |shapes| ==> RowDone(r.value.origins, shapes, axis, v)
    ensures r.Ok? ==> forall v, d :: 0 <= v < |shapes| && 0 <= d < |shapes[0]| ==>
      r.value.origins[v, d] == if d == axis then Extent(shapes, axis, v) % 0x1_0000_0000 else 0
  {
    var ok := Check(shapes, axis);
    if !ok {
      return Err(InvalidArgument);
    }
    var descriptor := new OriginsDescriptor(|shapes|, |shapes[0]|);
    descriptor.concatAxis := axis;
    var view, coord := 0, 0;
    while view < |shapes|
      invariant descriptor.concatAxis == axis
      invariant view <= |shapes| && coord == Extent(shapes, axis, view) % UINT
      invariant forall v :: 0 <= v < view ==> RowDone(descriptor.origins, shapes, axis, v)
    {
      SetView(descriptor, shapes, axis, view, coord);
      RunningSum(Extent(shapes, axis, view), shapes[view][axis]);
      coord := (coord + shapes[view][axis]) % UINT;
      view := view + 1;
    }
    forall v, d | 0 <= v < |shapes| && 0 <= d < |shapes[0]|
      ensures descriptor.origins[v, d] == if d == axis then Extent(shapes, axis, v) % 0x1_0000_0000 else 0
    {
      assert RowDone(descriptor.origins, shapes, axis, v);
    }
    return Ok(descriptor);
  }

  /** x is a coordinate of the output: the inputs' sizes add up along the axis. */
  ghost predicate InOutput(shapes: seq<Shape>, axis: nat, x: seq<nat>)
    requires Concatenable(shapes, axis)
  {
    |x| == |shapes[0]| && forall d :: 0 <= d < |x| ==> x[d] < if d == axis then Extent(shapes, axis, |shapes|) else shapes[0][d]
  }

  /** x lies in the box of view v. */
  ghost predicate InView(shapes: seq<Shape>, axis: nat, v: nat, x: seq<nat>)
    requires Concatenable(shapes, axis) && v < |shapes|
  {
    |x| == |shapes[0]| && forall d :: 0 <= d < |x| ==> OriginAt(shapes, axis, v, d) <= x[d] < OriginAt(shapes, axis, v, d) + shapes[v][d]
  }

  lemma {:induction false} ExtentGrows(shapes: seq<Shape>, axis: nat, m: nat, n: nat)
    requires Concatenable(shapes, axis) && m <= n <= |shapes|
    ensures Extent(shapes, axis, m) <= Extent(shapes, axis, n)
    ensures m < n ==> Extent(shapes, axis, m) + shapes[m][axis] <= Extent(shapes, axis, n)
  {
    if m < n {
      ExtentGrows(shapes, axis, m, n - 1);
    }
  }

  /** The view that a position along the axis belongs to. */
  lemma {:induction false} FindView(shapes: seq<Shape>, axis: nat, c: nat, n: nat) returns (v: nat)
    requires Concatenable(shapes, axis) && n <= |shapes| && c < Extent(shapes, axis, n)
    ensures v < n && Extent(shapes, axis, v) <= c < Extent(shapes, axis, v) + shapes[v][axis]
  {
    if c < Extent(shapes, axis, n - 1) {
      v := FindView(shapes, axis, c, n - 1);
    } else {
      v := n - 1;
    }
  }

  /** The views tile the output: a coordinate is in the output exactly when it is in a view, and in one view only. */
  lemma {:induction false} ViewsTile(shapes: seq<Shape>, axis: nat, x: seq<nat>)
    requires Concatenable(shapes, axis) && Extent(shapes, axis, |shapes|) < 0x1_0000_0000
    ensures InOutput(shapes, axis, x) <==> exists v :: 0 <= v < |shapes| && InView(shapes, axis, v, x)
    ensures forall v, w :: 0 <= v < |shapes| && 0 <= w < |shapes| && InView(shapes, axis, v, x) && InView(shapes, axis, w, x) ==> v == w
  {
    forall v | 0 <= v < |shapes|
      ensures OriginAt(shapes, axis, v, axis) == Extent(shapes, axis, v)
      ensures Extent(shapes, axis, v) + shapes[v][axis] <= Extent(shapes, axis, |shapes|)
    {
      ExtentGrows(shapes, axis, v, |shapes|);
    }
    if InOutput(shapes, axis, x) {
      var v := FindView(shapes, axis, x[axis], |shapes|);
      assert InView(shapes, axis, v, x);
    }
    if v :| 0 <= v < |shapes| && InView(shapes, axis, v, x) {
      assert x[axis] < Extent(shapes, axis, |shapes|);
      assert InOutput(shapes, axis, x);
    }
    forall v, w | 0 <= v < w < |shapes| && InView(shapes, axis, v, x)
      ensures !InView(shapes, axis, w, x)
    {
      ExtentGrows(shapes, axis, v, w);
      assert x[axis] < OriginAt(shapes, axis, w, axis);
    }
  }
}
