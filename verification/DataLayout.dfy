/** Offsets into four-dimensional tensors. */
module DataLayout {
  import opened Unsigned
  import opened GraphModel

  datatype Layout = NHWC | NCHW
  {
    function Channels(): nat { if NHWC? then 3 else 1 }
    function Height(): nat { if NHWC? then 1 else 2 }
    function Width(): nat { if NHWC? then 2 else 3 }
  }

  /** A test of GetIndex: an index may be 0 in a dimension of size 0. */
  predicate OutOfRange(index: nat, size: nat) {
    index >= size && !(size == 0 && index == 0)
  }

  /** The product of unsigned ints. */
  function Mul(a: nat, b: nat): nat {
    a * b % UINT
  }

  /** The sum of four unsigned ints. */
  function Add(a: nat, b: nat, c: nat, d: nat): nat {
    (a + b + c + d) % UINT
  }

  /** DataLayoutIndexed::GetIndex, in unsigned arithmetic. The width is tested differently from the other indices. */
  function GetIndex(layout: Layout, shape: seq<nat>, b: nat, c: nat, h: nat, w: nat): (r: Result<nat>)
    requires |shape| == 4
  {
    if OutOfRange(b, shape[0]) then Err(InvalidArgument)
    else if OutOfRange(c, shape[layout.Channels()]) then Err(InvalidArgument)
    else if OutOfRange(h, shape[layout.Height()]) then Err(InvalidArgument)
    else if w >= shape[layout.Width()] && shape[layout.Width()] == 0 && w == 0 then Err(InvalidArgument)
    else
      var batch := Mul(b, Mul(Mul(shape[1], shape[2]), shape[3]));
      match layout
      case NHWC =>
        Ok(Add(batch, Mul(h, Mul(shape[layout.Width()], shape[layout.Channels()])), Mul(w, shape[layout.Channels()]), c))
      case NCHW =>
        Ok(Add(batch, Mul(c, Mul(shape[layout.Height()], shape[layout.Width()])), Mul(h, shape[layout.Width()]), w))
  }

  lemma {:induction false} Below(a: nat, n: nat, size: nat)
    requires a < n
    ensures a * size + size <= n * size
  {
    assert n * size == a * size + (n - a) * size;
    Grow(size, n - a);
  }

  /** Numbers written with a digit lo below size are equal only if their digits are. */
  lemma {:induction false} DigitsDiffer(hi: nat, lo: nat, hi': nat, lo': nat, size: nat)
    requires lo < size && lo' < size && hi * size + lo == hi' * size + lo'
    ensures hi == hi' && lo == lo'
  {
    if hi < hi' {
      Below(hi, hi', size);
    }
    if hi' < hi {
      Below(hi', hi, size);
    }
  }

  /** The element at a position: one index per dimension, the last one running fastest. */
  function Position(sizes: seq<nat>, indices: seq<nat>): nat
    requires |sizes| == |indices|
  {
    if sizes == [] then 0
    else
      var n := |sizes| - 1;
      Position(sizes[..n], indices[..n]) * sizes[n] + indices[n]
  }

  /** The number of elements. */
  function Count(sizes: seq<nat>): nat {
    if sizes == [] then 1 else Count(sizes[..|sizes| - 1]) * sizes[|sizes| - 1]
  }

  ghost predicate Within(sizes: seq<nat>, indices: seq<nat>) {
    |sizes| == |indices| && forall d :: 0 <= d < |sizes| ==> indices[d] < sizes[d]
  }

  lemma {:induction false} PositionBelow(sizes: seq<nat>, indices: seq<nat>)
    requires Within(sizes, indices)
    ensures Position(sizes, indices) < Count(sizes)
  {
    if sizes != [] {
      var n := |sizes| - 1;
      PositionBelow(sizes[..n], indices[..n]);
      Below(Position(sizes[..n], indices[..n]), Count(sizes[..n]), sizes[n]);
    }
  }

  lemma {:induction false} PositionIsInjective(sizes: seq<nat>, a: seq<nat>, b: seq<nat>)
    requires Within(sizes, a) && Within(sizes, b) && Position(sizes, a) == Position(sizes, b)
    ensures a == b
  {
    if sizes != [] {
      var n := |sizes| - 1;
      DigitsDiffer(Position(sizes[..n], a[..n]), a[n], Position(sizes[..n], b[..n]), b[n], sizes[n]);
      PositionIsInjective(sizes[..n], a[..n], b[..n]);
      assert a == a[..n] + [a[n]] && b == b[..n] + [b[n]];
    }
  }

  lemma {:induction false} Split(x: nat, n: nat, size: nat) returns (hi: nat, lo: nat)
    requires x < n * size
    ensures hi < n && lo < size && x == hi * size + lo
    decreases n
  {
    if x < (n - 1) * size {
      hi, lo := Split(x, n - 1, size);
    } else {
      hi, lo := n - 1, x - (n - 1) * size;
    }
  }

  lemma {:induction false} PositionIsSurjective(sizes: seq<nat>, x: nat) returns (a: seq<nat>)
    requires x < Count(sizes)
    ensures Within(sizes, a) && Position(sizes, a) == x
  {
    if sizes == [] {
      return [];
    }
    var n := |sizes| - 1;
    var hi, lo := Split(x, Count(sizes[..n]), sizes[n]);
    a := PositionIsSurjective(sizes[..n], hi);
    a := a + [lo];
    assert a[..n] == a[..|a| - 1];
  }

  /** Batch, channel, height and width of one element. */
  datatype Coordinates = Coordinates(b: nat, c: nat, h: nat, w: nat)
  {
    /** In the order of the layout's dimensions. */
    function In(layout: Layout): (r: seq<nat>)
      ensures |r| == 4
    {
      match layout
      case NHWC => [b, h, w, c]
      case NCHW => [b, c, h, w]
    }
  }

  /** A product of two factors, of which the second is not 0, is at least the first. */
  lemma {:induction false} Grow(a: nat, b: nat)
    requires b > 0
    ensures a <= a * b
  {
  }

  lemma {:induction false} Associate(a: nat, b: nat, c: nat)
    ensures (a * b) * c == a * (b * c)
  {
  }

  lemma {:induction false} Spread(a: nat, b: nat, c: nat)
    ensures (a + b) * c == a * c + b * c
  {
  }

  /** A position of four indices as a sum of multiples. */
  lemma {:induction false} Distribute(b: nat, x: nat, y: nat, d1: nat, d2: nat, d3: nat)
    ensures ((b * d1 + x) * d2 + y) * d3 == b * ((d1 * d2) * d3) + x * (d2 * d3) + y * d3
  {
    Spread(b * d1, x, d2);
    Associate(b, d1, d2);
    Spread(b * (d1 * d2) + x * d2, y, d3);
    Spread(b * (d1 * d2), x * d2, d3);
    Associate(b, d1 * d2, d3);
    Associate(x, d2, d3);
  }

  lemma {:induction false} PositionOfFour(s: seq<nat>, i: seq<nat>)
    requires |s| == |i| == 4
    ensures Position(s, i) == ((i[0] * s[1] + i[1]) * s[2] + i[2]) * s[3] + i[3]
    ensures Count(s) == ((s[0] * s[1]) * s[2]) * s[3]
  {
    assert s[..3][..2] == s[..2] && s[..2][..1] == s[..1] && s[..1][..0] == [];
    assert i[..3][..2] == i[..2] && i[..2][..1] == i[..1] && i[..1][..0] == [];
    assert Position(s[..1], i[..1]) == i[0] && Count(s[..1]) == s[0];
    assert Position(s[..2], i[..2]) == i[0] * s[1] + i[1] && Count(s[..2]) == s[0] * s[1];
    assert Position(s[..3], i[..3]) == (i[0] * s[1] + i[1]) * s[2] + i[2] && Count(s[..3]) == (s[0] * s[1]) * s[2];
  }

  lemma {:induction false} SumOfRemainders(a: nat, b: nat, c: nat, d: nat)
    ensures Add(a % UINT, b % UINT, c % UINT, d) == Add(a, b, c, d)
  {
    RunningSum(a, b % UINT + c % UINT + d);
    RunningSum(b, a + c % UINT + d);
    RunningSum(c, a + b + d);
  }

  /** The sum of products in GetIndex, in the order of the dimensions, is the position, up to multiples of 2^32. */
  lemma {:induction false} SumIsPosition(s: seq<nat>, i: seq<nat>)
    requires |s| == |i| == 4
    ensures Add(Mul(i[0], Mul(Mul(s[1], s[2]), s[3])), Mul(i[1], Mul(s[2], s[3])), Mul(i[2], s[3]), i[3]) == Position(s, i) % UINT
  {
    PositionOfFour(s, i);
    Distribute(i[0], i[1], i[2], s[1], s[2], s[3]);
    ProductOfThree(s[1], s[2], s[3]);
    ProductOfRemainder(i[0], (s[1] * s[2]) * s[3]);
    ProductOfRemainder(i[1], s[2] * s[3]);
    SumOfRemainders(i[0] * ((s[1] * s[2]) * s[3]), i[1] * (s[2] * s[3]), i[2] * s[3], i[3]);
  }

  lemma {:induction false} ProductOfThree(a: nat, b: nat, c: nat)
    ensures Mul(Mul(a, b), c) == (a * b) * c % UINT
  {
    ProductOfRemainder(c, a * b);
    Commute(c, a * b % UINT);
    Commute(c, a * b);
  }

  lemma {:induction false} Commute(a: nat, b: nat)
    ensures a * b == b * a
  {
  }

  /** What is in range is not refused. */
  lemma {:induction false} IndexIsSum(layout: Layout, s: seq<nat>, e: Coordinates)
    requires |s| == 4 && Within(s, e.In(layout))
    ensures var i := e.In(layout);
      GetIndex(layout, s, e.b, e.c, e.h, e.w) == Ok(Add(Mul(i[0], Mul(Mul(s[1], s[2]), s[3])), Mul(i[1], Mul(s[2], s[3])), Mul(i[2], s[3]), i[3]))
  {
    var i := e.In(layout);
    assert i[0] < s[0] && i[1] < s[1] && i[2] < s[2] && i[3] < s[3];
  }

  /** GetIndex is the position of the element among all elements. With the lemmas on positions: for a tensor of fewer
      than 2^32 elements a bijection onto the numbers below their count. */
  lemma {:induction false} GetIndexIsPosition(layout: Layout, shape: seq<nat>, e: Coordinates)
    requires |shape| == 4 && Within(shape, e.In(layout)) && Count(shape) < 0x1_0000_0000
    ensures GetIndex(layout, shape, e.b, e.c, e.h, e.w) == Ok(Position(shape, e.In(layout)))
  {
    PositionBelow(shape, e.In(layout));
    SumIsPosition(shape, e.In(layout));
    IndexIsSum(layout, shape, e);
    Fits(Position(shape, e.In(layout)));
  }

  lemma {:induction false} Fits(n: nat)
    requires n < 0x1_0000_0000
    ensures n % UINT == n
  {
  }

  /** Written out for the two layouts, for tensors of any size: the index of an element is its position, channels last or channels
      first, modulo 2^32. */
  lemma {:induction false} IndexFormula(batches: nat, channels: nat, height: nat, width: nat, b: nat, c: nat, h: nat, w: nat)
    requires b < batches && c < channels && h < height && w < width
    ensures GetIndex(NHWC, [batches, height, width, channels], b, c, h, w) ==
      Ok((((b * height + h) * width + w) * channels + c) % 0x1_0000_0000)
    ensures GetIndex(NCHW, [batches, channels, height, width], b, c, h, w) ==
      Ok((((b * channels + c) * height + h) * width + w) % 0x1_0000_0000)
  {
    var e := Coordinates(b, c, h, w);
    var last, first := [batches, height, width, channels], [batches, channels, height, width];
    assert [b, h, w, c][0] == b && [b, c, h, w][0] == b;
    SumIsPosition(last, [b, h, w, c]);
    PositionOfFour(last, [b, h, w, c]);
    IndexIsSum(NHWC, last, e);
    SumIsPosition(first, [b, c, h, w]);
    PositionOfFour(first, [b, c, h, w]);
    IndexIsSum(NCHW, first, e);
  }

  /** The elements of a tensor. */
  ghost predicate IsElement(layout: Layout, shape: seq<nat>, e: Coordinates) {
    Within(shape, e.In(layout))
  }

  function IndexAt(layout: Layout, shape: seq<nat>, e: Coordinates): Result<nat>
    requires |shape| == 4
  {
    GetIndex(layout, shape, e.b, e.c, e.h, e.w)
  }

  /** Every element has an index below the number of elements, and no other element has it. */
  lemma {:induction false} IndexIsInjective(layout: Layout, shape: seq<nat>, e: Coordinates, f: Coordinates)
    requires |shape| == 4 && Count(shape) < 0x1_0000_0000 && IsElement(layout, shape, e) && IsElement(layout, shape, f)
    ensures IndexAt(layout, shape, e).Ok? && IndexAt(layout, shape, e).value < Count(shape)
    ensures IndexAt(layout, shape, e) == IndexAt(layout, shape, f) ==> e == f
  {
    GetIndexIsPosition(layout, shape, e);
    GetIndexIsPosition(layout, shape, f);
    var i, j := e.In(layout), f.In(layout);
    PositionBelow(shape, i);
    if IndexAt(layout, shape, e) == IndexAt(layout, shape, f) {
      PositionIsInjective(shape, i, j);
      assert i[0] == j[0] && i[1] == j[1] && i[2] == j[2] && i[3] == j[3];
    }
  }

  /** Every number below the number of elements is the index of one. */
  lemma {:induction false} IndexIsSurjective(layout: Layout, shape: seq<nat>, n: nat) returns (e: Coordinates)
    requires |shape| == 4 && n < Count(shape) < 0x1_0000_0000
    ensures IsElement(layout, shape, e) && IndexAt(layout, shape, e) == Ok(n)
  {
    var i := PositionIsSurjective(shape, n);
    e := if layout.NHWC? then Coordinates(i[0], i[3], i[1], i[2]) else Coordinates(i[0], i[1], i[2], i[3]);
    assert e.In(layout) == i;
    GetIndexIsPosition(layout, shape, e);
  }

  /** All indices but the width are tested, with an exception for empty dimensions: GetIndex refuses exactly what is no
      element if and only if a test that is made fails, or no other dimension is empty and the width is in range. */
  lemma {:induction false} WidthNotTested(layout: Layout, shape: seq<nat>, e: Coordinates)
    requires |shape| == 4
    ensures var batches, channels, height, width := shape[0], shape[layout.Channels()], shape[layout.Height()], shape[layout.Width()];
      (IndexAt(layout, shape, e).Ok? <==> IsElement(layout, shape, e)) <==>
      || OutOfRange(e.b, batches) || OutOfRange(e.c, channels) || OutOfRange(e.h, height) || (width == 0 && e.w == 0)
      || (batches > 0 && channels > 0 && height > 0 && e.w < width)
  {
    var i := e.In(layout);
    assert Within(shape, i) <==> i[0] < shape[0] && i[1] < shape[1] && i[2] < shape[2] && i[3] < shape[3];
  }

  /** For an empty tensor, which has no element, an index of 0 is accepted where the dimension is empty. */
  lemma {:induction false} EmptyTensorAccepted()
    ensures GetIndex(NCHW, [0, 1, 1, 1], 0, 0, 0, 0) == Ok(0)
    ensures forall e: Coordinates :: !IsElement(NCHW, [0, 1, 1, 1], e)
  {
    assert [0, 1, 1, 1][0] == 0 && [0, 1, 1, 1][3] == 1;
    forall e: Coordinates
      ensures !IsElement(NCHW, [0, 1, 1, 1], e)
    {
      assert e.In(NCHW)[0] >= [0, 1, 1, 1][0];
    }
  }

  /** Hence two coordinates can share an index: a width one past the end means the next row. */
  lemma {:induction false} WidthPastTheEnd()
    ensures GetIndex(NCHW, [1, 1, 2, 3], 0, 0, 0, 3) == GetIndex(NCHW, [1, 1, 2, 3], 0, 0, 1, 0) == Ok(3)
  {
    assert [1, 1, 2, 3][3] == 3;
  }
}
