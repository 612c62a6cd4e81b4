/**
  Fitting an image into the model's input: geometry, interpolation tables with their cache, and
  the fused kernel that writes every cell of the output tensor once.
 */
module Letterbox {
  import opened Common
  import opened Detections

  // ---------- geometry ----------

  datatype Transform = Transform(
    scale: real, padX: int, padY: int, sourceWidth: int, sourceHeight: int, resizedWidth: int, resizedHeight: int)

  /** Rounding to the nearest integer, halves away from zero. */
  function Lround(x: real): int {
    if x >= 0.0 then (x + 0.5).Floor else -((-x + 0.5).Floor)
  }

  function Ratio(source: int, target: int): real
    requires source > 0
  {
    target as real / source as real
  }

  /** The largest scale at which the source fits into the target. */
  function FitRatio(sw: int, sh: int, tw: int, th: int): real
    requires sw > 0 && sh > 0
  {
    Min(Ratio(sh, th), Ratio(sw, tw))
  }

  function Scaled(source: int, ratio: real): real {
    source as real * ratio
  }

  function Resized(source: int, ratio: real): int {
    Lround(Scaled(source, ratio))
  }

  /** Half the room left over; the -0.1 puts the odd pixel on the far side. */
  function Padding(target: int, resized: int): int {
    Lround((target - resized) as real / 2.0 - 0.1)
  }

  function TransformOf(sw: int, sh: int, tw: int, th: int): Transform
    requires sw > 0 && sh > 0
  {
    var ratio := FitRatio(sw, sh, tw, th);
    var rw, rh := Resized(sw, ratio), Resized(sh, ratio);
    Transform(ratio, Padding(tw, rw), Padding(th, rh), sw, sh, rw, rh)
  }

  /** The content lies inside the target, centred up to the odd pixel. */
  ghost predicate Fits(resized: int, pad: int, target: int) {
    0 <= resized <= target && pad == (target - resized) / 2 && 0 <= pad && pad + resized <= target
  }

  lemma ScaledWithin(source: int, ratio: real, target: int)
    requires source > 0 && 0.0 <= ratio <= Ratio(source, target)
    ensures 0.0 <= Scaled(source, ratio) <= target as real
    ensures ratio == Ratio(source, target) ==> Scaled(source, ratio) == target as real
  {
    var s := source as real;
    assert s * Ratio(source, target) == target as real;
    ProductMonotone(s, ratio, s, Ratio(source, target));
  }

  lemma RatioPositive(source: int, target: int)
    requires source > 0 && target > 0
    ensures Ratio(source, target) > 0.0
  {
  }

  lemma RoundedWithin(x: real, target: int)
    requires 0.0 <= x <= target as real
    ensures 0 <= Lround(x) <= target
    ensures x == target as real ==> Lround(x) == target
  {
  }

  lemma PaddingIsHalf(target: int, resized: int)
    requires resized <= target
    ensures Padding(target, resized) == (target - resized) / 2
  {
    var d := target - resized;
    var h := d / 2;
    if d % 2 == 0 {
      assert d as real / 2.0 == h as real;
    } else {
      assert d as real / 2.0 == h as real + 0.5;
    }
  }

  /** On both axes the resized image fits with even padding, and on one of them it fills the target. */
  lemma ContentFits(sw: int, sh: int, tw: int, th: int)
    requires sw > 0 && sh > 0 && tw > 0 && th > 0
    ensures var t := TransformOf(sw, sh, tw, th);
      && t.scale > 0.0
      && Fits(t.resizedWidth, t.padX, tw) && Fits(t.resizedHeight, t.padY, th)
      && (t.resizedWidth == tw || t.resizedHeight == th)
  {
    hide Ratio, Lround, Padding, Scaled;
    var ratio := FitRatio(sw, sh, tw, th);
    RatioPositive(sw, tw);
    RatioPositive(sh, th);
    ScaledWithin(sw, ratio, tw);
    ScaledWithin(sh, ratio, th);
    RoundedWithin(Scaled(sw, ratio), tw);
    RoundedWithin(Scaled(sh, ratio), th);
    PaddingIsHalf(tw, Resized(sw, ratio));
    PaddingIsHalf(th, Resized(sh, ratio));
  }

  /** None where the source throws: all four sizes must be positive. Otherwise the content fits. */
  function ComputeLetterbox(sw: int, sh: int, tw: int, th: int): (r: Option<Transform>)
    ensures r.None? <==> sw <= 0 || sh <= 0 || tw <= 0 || th <= 0
    ensures r.Some? ==>
      && r.value.scale > 0.0
      && Fits(r.value.resizedWidth, r.value.padX, tw) && Fits(r.value.resizedHeight, r.value.padY, th)
      && (r.value.resizedWidth == tw || r.value.resizedHeight == th)
  {
    if sw <= 0 || sh <= 0 || tw <= 0 || th <= 0 then
      None
    else
      ContentFits(sw, sh, tw, th);
      Some(TransformOf(sw, sh, tw, th))
  }

  lemma ComputesTransform(sw: int, sh: int, tw: int, th: int)
    requires sw > 0 && sh > 0 && tw > 0 && th > 0
    ensures var r := ComputeLetterbox(sw, sh, tw, th);
      r == Some(TransformOf(sw, sh, tw, th)) && r.value.resizedWidth >= 0 && r.value.resizedHeight >= 0
  {
    hide TransformOf;
  }

  function Clamp(x: real, low: real, high: real): real {
    if x < low then low else if x > high then high else x
  }

  function Forward(x: real, scale: real, pad: int): real {
    x * scale + pad as real
  }

  function Backward(y: real, scale: real, pad: int): real
    requires scale != 0.0
  {
    (y - pad as real) / scale
  }

  /** A model box, in source pixels, clipped to the image. */
  function ToSource(t: Transform, b: Box): Box
    requires t.scale != 0.0
  {
    var w, h := t.sourceWidth as real, t.sourceHeight as real;
    Box(Clamp(Backward(b.x1, t.scale, t.padX), 0.0, w), Clamp(Backward(b.y1, t.scale, t.padY), 0.0, h),
        Clamp(Backward(b.x2, t.scale, t.padX), 0.0, w), Clamp(Backward(b.y2, t.scale, t.padY), 0.0, h))
  }

  function ToModel(t: Transform, b: Box): Box {
    Box(Forward(b.x1, t.scale, t.padX), Forward(b.y1, t.scale, t.padY),
        Forward(b.x2, t.scale, t.padX), Forward(b.y2, t.scale, t.padY))
  }

  function Clipped(t: Transform, b: Box): Box {
    var w, h := t.sourceWidth as real, t.sourceHeight as real;
    Box(Clamp(b.x1, 0.0, w), Clamp(b.y1, 0.0, h), Clamp(b.x2, 0.0, w), Clamp(b.y2, 0.0, h))
  }

  lemma BackwardUndoesForward(x: real, scale: real, pad: int)
    requires scale != 0.0
    ensures Backward(Forward(x, scale, pad), scale, pad) == x
  {
    assert Forward(x, scale, pad) - pad as real == x * scale;
  }

  /** Mapping to the model and back clips a box to the image, and does nothing else to it. */
  lemma RoundTripClips(t: Transform, b: Box)
    requires t.scale != 0.0
    ensures ToSource(t, ToModel(t, b)) == Clipped(t, b)
  {
    hide Clamp, Forward, Backward;
    BackwardUndoesForward(b.x1, t.scale, t.padX);
    BackwardUndoesForward(b.y1, t.scale, t.padY);
    BackwardUndoesForward(b.x2, t.scale, t.padX);
    BackwardUndoesForward(b.y2, t.scale, t.padY);
  }

  // ---------- interpolation tables ----------

  /** The two source positions an output position is blended from, and the weight of the second. */
  datatype Tap = Tap(lo: int, hi: int, weight: real)

  /** Where the centre of output position d falls in the source. */
  function Position(size: int, resized: int, d: int): real
    requires resized > 0
  {
    (d as real + 0.5) * (size as real / resized as real) - 0.5
  }

  /** Half-pixel-centre mapping, clamped at the borders. */
  function TapOf(size: int, resized: int, d: int): Tap
    requires resized > 0
  {
    var position := Position(size, resized, d);
    var floor := position.Floor;
    var weight := position - floor as real;
    var lo, w := if floor < 0 then 0 else floor, if floor < 0 then 0.0 else weight;
    if lo >= size - 1 then Tap(size - 1, size - 1, 0.0) else Tap(lo, lo + 1, w)
  }

  /** Both positions lie in the source, and the weight is a proper fraction. */
  lemma TapInRange(size: int, resized: int, d: int)
    requires size > 0 && resized > 0
    ensures var t := TapOf(size, resized, d); 0 <= t.lo <= t.hi < size && t.hi <= t.lo + 1 && 0.0 <= t.weight < 1.0
  {
    hide Position;
  }

  // ---------- images and samples ----------

  datatype PixelFormat = Bgr8 | Rgb8 | Gray8

  function Channels(f: PixelFormat): int {
    if f.Gray8? then 1 else 3
  }

  /** The source channel behind each of the planes R, G, B. */
  function ChannelOfPlane(f: PixelFormat, p: int): int
    requires 0 <= p < 3
  {
    match f
    case Bgr8 => 2 - p
    case Rgb8 => p
    case Gray8 => 0
  }

  /** A view of interleaved bytes; rows may be padded. */
  datatype ImageView = ImageView(data: seq<int>, width: int, height: int, stride: int, format: PixelFormat) {
    predicate Empty() {
      data == [] || width <= 0 || height <= 0
    }

    /** What a caller promises of a view that is not empty: bytes, and enough of them. */
    ghost predicate Valid() {
      && (forall i :: 0 <= i < |data| ==> 0 <= data[i] <= 255)
      && width * Channels(format) <= stride
      && (height - 1) * stride + width * Channels(format) <= |data|
    }
  }

  /** Where byte c of pixel (x, y) is. */
  function ByteAt(v: ImageView, y: int, x: int, c: int): int {
    y * v.stride + (x * Channels(v.format) + c)
  }

  /** Pixels of a view are within its data. */
  lemma PixelInBounds(v: ImageView, y: int, x: int, c: int)
    requires v.Valid() && 0 <= y < v.height && 0 <= x < v.width && 0 <= c < Channels(v.format)
    ensures 0 <= ByteAt(v, y, x, c) < |v.data|
  {
    var n := Channels(v.format);
    assert x * n + c < v.width * n && 0 <= x * n;
    assert v.stride >= 0;
    assert 0 <= y * v.stride <= (v.height - 1) * v.stride;
  }

  function Blend(a: real, b: real, w: real): real {
    a + (b - a) * w
  }

  /** A blend of two values is between them. */
  lemma BlendBetween(a: real, b: real, w: real, low: real, high: real)
    requires low <= a <= high && low <= b <= high && 0.0 <= w <= 1.0
    ensures low <= Blend(a, b, w) <= high
  {
    if b >= a {
      ProductMonotone(b - a, w, b - a, 1.0);
    } else {
      ProductMonotone(a - b, w, a - b, 1.0);
      assert (b - a) * w == -((a - b) * w);
    }
  }

  ghost predicate TapWithin(t: Tap, size: int) {
    0 <= t.lo <= t.hi < size && 0.0 <= t.weight < 1.0
  }

  /** Bilinear interpolation of channel c between four pixels, scaled to [0, 1]. */
  function Sample(v: ImageView, ty: Tap, tx: Tap, c: int): (r: real)
    requires v.Valid() && TapWithin(ty, v.height) && TapWithin(tx, v.width) && 0 <= c < Channels(v.format)
  {
    PixelInBounds(v, ty.lo, tx.lo, c);
    PixelInBounds(v, ty.lo, tx.hi, c);
    PixelInBounds(v, ty.hi, tx.lo, c);
    PixelInBounds(v, ty.hi, tx.hi, c);
    var a, b := v.data[ByteAt(v, ty.lo, tx.lo, c)] as real, v.data[ByteAt(v, ty.lo, tx.hi, c)] as real;
    var d, e := v.data[ByteAt(v, ty.hi, tx.lo, c)] as real, v.data[ByteAt(v, ty.hi, tx.hi, c)] as real;
    Blend(Blend(a, b, tx.weight), Blend(d, e, tx.weight), ty.weight) / 255.0
  }

  lemma SampleInRange(v: ImageView, ty: Tap, tx: Tap, c: int)
    requires v.Valid() && TapWithin(ty, v.height) && TapWithin(tx, v.width) && 0 <= c < Channels(v.format)
    ensures 0.0 <= Sample(v, ty, tx, c) <= 1.0
  {
    hide ByteAt, Blend;
    PixelInBounds(v, ty.lo, tx.lo, c);
    PixelInBounds(v, ty.lo, tx.hi, c);
    PixelInBounds(v, ty.hi, tx.lo, c);
    PixelInBounds(v, ty.hi, tx.hi, c);
    var a, b := v.data[ByteAt(v, ty.lo, tx.lo, c)] as real, v.data[ByteAt(v, ty.lo, tx.hi, c)] as real;
    var d, e := v.data[ByteAt(v, ty.hi, tx.lo, c)] as real, v.data[ByteAt(v, ty.hi, tx.hi, c)] as real;
    BlendBetween(a, b, tx.weight, 0.0, 255.0);
    BlendBetween(d, e, tx.weight, 0.0, 255.0);
    BlendBetween(Blend(a, b, tx.weight), Blend(d, e, tx.weight), ty.weight, 0.0, 255.0);
  }

  // ---------- the output tensor ----------

  /** Which row of the tensor is row y of plane p; the planes lie one after the other. */
  function RowOf(th: int, p: int, y: int): int {
    if p == 0 then y else if p == 1 then th + y else 2 * th + y
  }

  /** Where column x of tensor row r is. */
  function CellAt(tw: int, r: int, x: int): int {
    r * tw + x
  }

  function RowIn(tw: int, i: int): int
    requires tw > 0
  {
    i / tw
  }

  function ColumnIn(tw: int, i: int): int
    requires tw > 0
  {
    i % tw
  }

  lemma MulMonotone(a: int, b: int, m: int)
    requires m >= 0
    ensures a <= b ==> a * m <= b * m
    ensures (a + 1) * m == a * m + m
  {
  }

  lemma QuotientRemainder(i: int, m: int, q: int, r: int)
    requires i == q * m + r && 0 <= r < m
    ensures i / m == q && i % m == r
  {
    var k := i / m;
    MulMonotone(q + 1, k, m);
    MulMonotone(q, k, m);
    MulMonotone(k + 1, q, m);
    MulMonotone(k, q, m);
    assert i == k * m + i % m;
  }

  lemma CellLaws(tw: int, rows: int, r: int, x: int)
    requires 0 <= r < rows && 0 <= x < tw
    ensures 0 <= CellAt(tw, r, x) < rows * tw
    ensures RowIn(tw, CellAt(tw, r, x)) == r && ColumnIn(tw, CellAt(tw, r, x)) == x
  {
    MulMonotone(r + 1, rows, tw);
    MulMonotone(r, rows, tw);
    MulMonotone(0, r, tw);
    QuotientRemainder(CellAt(tw, r, x), tw, r, x);
  }

  lemma CellOf(tw: int, rows: int, i: int)
    requires tw > 0 && 0 <= i < rows * tw
    ensures 0 <= RowIn(tw, i) < rows && 0 <= ColumnIn(tw, i) < tw
    ensures CellAt(tw, RowIn(tw, i), ColumnIn(tw, i)) == i
  {
    var k := i / tw;
    assert i == k * tw + i % tw;
    MulMonotone(rows, k, tw);
  }

  /** The target, and the source that is to be fitted into it. */
  datatype Job = Job(view: ImageView, tw: int, th: int, pad: real) {
    ghost predicate Valid() {
      !view.Empty() && view.Valid() && tw > 0 && th > 0
    }

    function Geometry(): Transform
      requires !view.Empty()
    {
      TransformOf(view.width, view.height, tw, th)
    }

    ghost predicate InContent(y: int, x: int)
      requires !view.Empty()
    {
      var t := Geometry();
      t.padY <= y < t.padY + t.resizedHeight && t.padX <= x < t.padX + t.resizedWidth
    }

    /**
      What belongs into column x of row y of plane p: a sample of the image, or padding. It depends
      on nothing else.
     */
    ghost function Expected(p: int, y: int, x: int): real
      requires Valid() && 0 <= p < 3
    {
      var t := Geometry();
      if InContent(y, x) then
        TapInRange(view.height, t.resizedHeight, y - t.padY);
        TapInRange(view.width, t.resizedWidth, x - t.padX);
        ChannelInRange(view.format, p);
        Sample(view, TapOf(view.height, t.resizedHeight, y - t.padY), TapOf(view.width, t.resizedWidth, x - t.padX),
               ChannelOfPlane(view.format, p))
      else pad
    }

    /** The same, by tensor row. */
    ghost function ExpectedInRow(r: int, x: int): real
      requires Valid() && 0 <= r < 3 * th
    {
      if r < th then Expected(0, r, x) else if r < 2 * th then Expected(1, r - th, x) else Expected(2, r - 2 * th, x)
    }
  }

  lemma ChannelInRange(f: PixelFormat, p: int)
    requires 0 <= p < 3
    ensures 0 <= ChannelOfPlane(f, p) < Channels(f)
  {
  }

  /** Every cell of the tensor is to hold a value between 0 and 1. */
  lemma ExpectedInRange(job: Job, p: int, y: int, x: int)
    requires job.Valid() && 0 <= p < 3 && 0.0 <= job.pad <= 1.0
    ensures 0.0 <= job.Expected(p, y, x) <= 1.0
  {
    hide TapOf, Sample;
    var t := job.Geometry();
    if job.InContent(y, x) {
      TapInRange(job.view.height, t.resizedHeight, y - t.padY);
      TapInRange(job.view.width, t.resizedWidth, x - t.padX);
      ChannelInRange(job.view.format, p);
      SampleInRange(job.view, TapOf(job.view.height, t.resizedHeight, y - t.padY),
                    TapOf(job.view.width, t.resizedWidth, x - t.padX), ChannelOfPlane(job.view.format, p));
    }
  }

  // ---------- which cells have been written ----------

  /** The columns from a to b. */
  function Columns(a: int, b: int): (s: set<int>)
    ensures forall x :: x in s <==> a <= x < b
    decreases b - a
  {
    if a >= b then {} else Columns(a, b - 1) + {b - 1}
  }

  /** What has been written so far is right; `done` has the columns written in each tensor row. */
  ghost predicate Right(job: Job, out: seq<real>, done: seq<set<int>>)
    requires job.Valid()
  {
    && |done| == 3 * job.th && |out| >= 3 * job.th * job.tw
    && forall i :: 0 <= i < 3 * job.th * job.tw ==> CellIsRight(job, out, done, i)
  }

  ghost predicate CellIsRight(job: Job, out: seq<real>, done: seq<set<int>>, i: int)
    requires job.Valid() && |done| == 3 * job.th && 0 <= i < 3 * job.th * job.tw <= |out|
  {
    CellOf(job.tw, 3 * job.th, i);
    ColumnIn(job.tw, i) in done[RowIn(job.tw, i)] ==> out[i] == job.ExpectedInRow(RowIn(job.tw, i), ColumnIn(job.tw, i))
  }

  lemma NothingWritten(job: Job, out: seq<real>, done: seq<set<int>>)
    requires job.Valid() && |done| == 3 * job.th && |out| >= 3 * job.th * job.tw
    requires forall r :: 0 <= r < |done| ==> done[r] == {}
    ensures Right(job, out, done)
  {
    hide Job.ExpectedInRow;
    forall i | 0 <= i < 3 * job.th * job.tw ensures CellIsRight(job, out, done, i) {
      CellOf(job.tw, 3 * job.th, i);
    }
  }

  lemma WriteIsRight(job: Job, out: seq<real>, done: seq<set<int>>, r: int, x: int, v: real)
    requires job.Valid() && Right(job, out, done) && 0 <= r < 3 * job.th && 0 <= x < job.tw
    requires v == job.ExpectedInRow(r, x)
    ensures 0 <= CellAt(job.tw, r, x) < 3 * job.th * job.tw
    ensures Right(job, out[CellAt(job.tw, r, x) := v], done[r := done[r] + {x}])
  {
    hide Job.ExpectedInRow, CellAt, RowIn, ColumnIn;
    var cell := CellAt(job.tw, r, x);
    CellLaws(job.tw, 3 * job.th, r, x);
    var out', done' := out[cell := v], done[r := done[r] + {x}];
    forall i | 0 <= i < 3 * job.th * job.tw ensures CellIsRight(job, out', done', i) {
      CellOf(job.tw, 3 * job.th, i);
      assert CellIsRight(job, out, done, i);
    }
  }

  /** Write one cell, which must not have been written before. */
  method Write(ghost job: Job, out: array<real>, tw: int, r: int, x: int, v: real, ghost done: seq<set<int>>)
    returns (ghost done': seq<set<int>>)
    requires job.Valid() && tw == job.tw && Right(job, out[..], done) && 0 <= r < |done| && 0 <= x < tw
    requires x !in done[r] && v == job.ExpectedInRow(r, x)
    modifies out
    ensures |done| == 3 * job.th && done' == done[r := done[r] + {x}] && Right(job, out[..], done')
    ensures forall i :: 3 * job.th * tw <= i < out.Length ==> out[i] == old(out[i])
  {
    hide Right, CellAt, Job.ExpectedInRow;
    RightSizes(job, out[..], done);
    WriteIsRight(job, out[..], done, r, x, v);
    done' := done[r := done[r] + {x}];
    var cell := CellAt(tw, r, x);
    ghost var after := out[..][cell := v];
    out[cell] := v;
    assert out[..] == after;
  }

  lemma RightSizes(job: Job, out: seq<real>, done: seq<set<int>>)
    requires job.Valid() && Right(job, out, done)
    ensures |done| == 3 * job.th && |out| >= 3 * job.th * job.tw
  {
  }

  /** Fill columns a to b of a tensor row with padding. */
  method FillRow(ghost job: Job, out: array<real>, tw: int, pad: real, r: int, a: int, b: int,
      ghost done: seq<set<int>>)
    returns (ghost done': seq<set<int>>)
    requires job.Valid() && tw == job.tw && Right(job, out[..], done)
    requires 0 <= r < |done| == 3 * job.th && 0 <= a <= b <= tw
    requires forall x :: a <= x < b ==> x !in done[r] && job.ExpectedInRow(r, x) == pad
    modifies out
    ensures |done| == 3 * job.th && done' == done[r := done[r] + Columns(a, b)] && Right(job, out[..], done')
    ensures forall i :: 3 * job.th * tw <= i < out.Length ==> out[i] == old(out[i])
  {
    hide Right, Job.ExpectedInRow;
    done' := done;
    var x := a;
    assert done[r] + Columns(a, a) == done[r];
    while x < b
      invariant a <= x <= b && Right(job, out[..], done') && done' == done[r := done[r] + Columns(a, x)]
      invariant forall i :: 3 * job.th * tw <= i < out.Length ==> out[i] == old(out[i])
    {
      assert done[r] + Columns(a, x) + {x} == done[r] + Columns(a, x + 1);
      done' := Write(job, out, tw, r, x, pad, done');
      x := x + 1;
    }
  }

  /** Fill whole tensor rows with padding. */
  method FillRows(ghost job: Job, out: array<real>, tw: int, pad: real, from: int, to: int, ghost done: seq<set<int>>)
    returns (ghost done': seq<set<int>>)
    requires job.Valid() && tw == job.tw && Right(job, out[..], done) && 0 <= from <= to <= |done| == 3 * job.th
    requires forall r :: from <= r < to ==> done[r] == {}
    requires forall r, x :: from <= r < to && 0 <= x < tw ==> job.ExpectedInRow(r, x) == pad
    modifies out
    ensures |done'| == |done| && Right(job, out[..], done')
    ensures forall r :: 0 <= r < |done| ==> done'[r] == if from <= r < to then Columns(0, tw) else done[r]
    ensures forall i :: 3 * job.th * tw <= i < out.Length ==> out[i] == old(out[i])
  {
    hide Right, Job.ExpectedInRow, Columns;
    done' := done;
    var k := from;
    while k < to
      invariant from <= k <= to && Right(job, out[..], done') && |done'| == |done|
      invariant forall r :: 0 <= r < |done| ==> done'[r] == if from <= r < k then Columns(0, tw) else done[r]
      invariant forall i :: 3 * job.th * tw <= i < out.Length ==> out[i] == old(out[i])
    {
      assert {} + Columns(0, tw) == Columns(0, tw);
      done' := FillRow(job, out, tw, pad, k, 0, tw, done');
      k := k + 1;
    }
  }

  // ---------- rows of the tensor ----------

  /** The plane a tensor row belongs to, and which line of it that is. */
  function PlaneOf(th: int, r: int): int {
    if r < th then 0 else if r < 2 * th then 1 else 2
  }

  function LineOf(th: int, r: int): int {
    if r < th then r else if r < 2 * th then r - th else r - 2 * th
  }

  lemma PlaneLaws(th: int, r: int, p: int, y: int)
    requires 0 <= r < 3 * th && 0 <= p < 3
    ensures 0 <= PlaneOf(th, r) < 3 && 0 <= LineOf(th, r) < th && RowOf(th, PlaneOf(th, r), LineOf(th, r)) == r
    ensures PlaneOf(th, r) == p <==> RowOf(th, p, 0) <= r < RowOf(th, p, 0) + th
    ensures PlaneOf(th, r) == p ==> LineOf(th, r) == r - RowOf(th, p, 0)
    ensures 0 <= y < th ==>
      0 <= RowOf(th, p, y) < 3 * th && PlaneOf(th, RowOf(th, p, y)) == p && LineOf(th, RowOf(th, p, y)) == y
    ensures 0 <= RowOf(th, p, 0) && RowOf(th, p, 0) + th <= 3 * th
  {
  }

  /** What belongs into a tensor row, by its plane and line. */
  lemma ExpectedByPlane(job: Job, r: int, x: int)
    requires job.Valid() && 0 <= r < 3 * job.th
    ensures 0 <= PlaneOf(job.th, r) < 3
    ensures job.ExpectedInRow(r, x) == job.Expected(PlaneOf(job.th, r), LineOf(job.th, r), x)
    ensures !job.InContent(LineOf(job.th, r), x) ==> job.ExpectedInRow(r, x) == job.pad
  {
    hide Sample, TransformOf, TapOf, Job.InContent;
  }

  /** A line above or below the image. */
  predicate IsBar(top: int, bottom: int, y: int) {
    y < top || y >= bottom
  }

  lemma BarIsPadding(job: Job, r: int, x: int)
    requires job.Valid() && 0 <= r < 3 * job.th
    requires IsBar(job.Geometry().padY, job.Geometry().padY + job.Geometry().resizedHeight, LineOf(job.th, r))
      || x < job.Geometry().padX || x >= job.Geometry().padX + job.Geometry().resizedWidth
    ensures job.ExpectedInRow(r, x) == job.pad
  {
    hide TransformOf, Job.Expected, Job.ExpectedInRow;
    ExpectedByPlane(job, r, x);
  }

  /** The bars of the first p planes have been written, and nothing else. */
  ghost predicate BarsDone(done: seq<set<int>>, th: int, tw: int, top: int, bottom: int, p: int)
    requires |done| == 3 * th
  {
    forall r :: 0 <= r < |done| ==>
      done[r] == if PlaneOf(th, r) < p && IsBar(top, bottom, LineOf(th, r)) then Columns(0, tw) else {}
  }

  /** The padding rows of one plane. */
  method FillBars(ghost job: Job, out: array<real>, tw: int, th: int, top: int, bottom: int, pad: real,
      p: int, ghost done: seq<set<int>>)
    returns (ghost done': seq<set<int>>)
    requires job.Valid() && tw == job.tw && th == job.th && pad == job.pad && 0 <= p < 3
    requires top == job.Geometry().padY && bottom == top + job.Geometry().resizedHeight
    requires 0 <= top <= bottom <= th
    requires |done| == 3 * th && Right(job, out[..], done) && BarsDone(done, th, tw, top, bottom, p)
    modifies out
    ensures |done'| == 3 * th && Right(job, out[..], done') && BarsDone(done', th, tw, top, bottom, p + 1)
    ensures forall i :: 3 * th * tw <= i < out.Length ==> out[i] == old(out[i])
  {
    hide Right, Job.ExpectedInRow, Columns, TransformOf, RowOf, PlaneOf, LineOf;
    var first := RowOf(th, p, 0);
    PlaneLaws(th, 0, p, 0);
    forall r | 0 <= r < |done|
      ensures PlaneOf(th, r) == p <==> first <= r < first + th
      ensures PlaneOf(th, r) == p ==> LineOf(th, r) == r - first
    {
      PlaneLaws(th, r, p, 0);
    }
    forall r, x | first <= r < first + th && 0 <= x < tw && IsBar(top, bottom, r - first)
      ensures 0 <= r < |done| && job.ExpectedInRow(r, x) == pad
    {
      BarIsPadding(job, r, x);
    }
    ghost var middle := FillRows(job, out, tw, pad, first, first + top, done);
    done' := FillRows(job, out, tw, pad, first + bottom, first + th, middle);
  }

  /** The bars and the image lines before y have been written, and nothing else. */
  ghost predicate LinesDone(done: seq<set<int>>, th: int, tw: int, top: int, bottom: int, y: int)
    requires |done| == 3 * th
  {
    forall r :: 0 <= r < |done| ==>
      done[r] == if LineOf(th, r) < y || IsBar(top, bottom, LineOf(th, r)) then Columns(0, tw) else {}
  }

  /** In line y of every plane these columns have been written; in the planes before p also those. */
  ghost predicate LineProgress(done: seq<set<int>>, before: seq<set<int>>, th: int, y: int, p: int,
      more: set<int>, columns: set<int>)
    requires |done| == |before| == 3 * th
  {
    forall r :: 0 <= r < |done| ==>
      done[r] == if LineOf(th, r) == y then (if PlaneOf(th, r) < p then more else columns) else before[r]
  }

  /** Padding left and right of the image, in line y of all planes. */
  method FillMargins(ghost job: Job, out: array<real>, tw: int, th: int, y: int, left: int, right: int,
      pad: real, ghost done: seq<set<int>>)
    returns (ghost done': seq<set<int>>)
    requires job.Valid() && tw == job.tw && th == job.th && pad == job.pad && 0 <= y < th
    requires left == job.Geometry().padX && right == left + job.Geometry().resizedWidth
    requires 0 <= left <= right <= tw
    requires |done| == 3 * th && Right(job, out[..], done)
    requires forall r :: 0 <= r < |done| && LineOf(th, r) == y ==> done[r] == {}
    modifies out
    ensures |done'| == 3 * th && Right(job, out[..], done')
    ensures LineProgress(done', done, th, y, 3, Columns(0, left) + Columns(right, tw), {})
    ensures forall i :: 3 * th * tw <= i < out.Length ==> out[i] == old(out[i])
  {
    hide Right, Job.ExpectedInRow, Columns, TransformOf, RowOf, PlaneOf, LineOf;
    done' := done;
    var p := 0;
    ghost var margins := Columns(0, left) + Columns(right, tw);
    PlanesInRange(th);
    while p < 3
      invariant 0 <= p <= 3 && |done'| == 3 * th && Right(job, out[..], done')
      invariant LineProgress(done', done, th, y, p, margins, {})
      invariant forall i :: 3 * th * tw <= i < out.Length ==> out[i] == old(out[i])
    {
      var r := RowOf(th, p, y);
      PlaneLaws(th, 0, p, y);
      MarginsArePadding(job, r, left, right);
      assert {} + Columns(0, left) + Columns(right, tw) == margins;
      ghost var entry := done';
      done' := FillRow(job, out, tw, pad, r, 0, left, done');
      done' := FillRow(job, out, tw, pad, r, right, tw, done');
      NextPlane(entry, done', done, th, y, p, margins, {});
      p := p + 1;
    }
  }

  lemma MarginsArePadding(job: Job, r: int, left: int, right: int)
    requires job.Valid() && 0 <= r < 3 * job.th
    requires left == job.Geometry().padX && right == left + job.Geometry().resizedWidth
    ensures forall x :: x < left || x >= right ==> job.ExpectedInRow(r, x) == job.pad
  {
    hide TransformOf, Job.ExpectedInRow, LineOf, IsBar;
    forall x | x < left || x >= right ensures job.ExpectedInRow(r, x) == job.pad {
      BarIsPadding(job, r, x);
    }
  }

  lemma NextPlane(entry: seq<set<int>>, exit: seq<set<int>>, before: seq<set<int>>, th: int, y: int,
      p: int, more: set<int>, columns: set<int>)
    requires |entry| == |exit| == |before| == 3 * th && 0 <= p < 3 && 0 <= y < th
    requires 0 <= RowOf(th, p, y) < |entry| && exit == entry[RowOf(th, p, y) := more]
    requires LineProgress(entry, before, th, y, p, more, columns)
    ensures LineProgress(exit, before, th, y, p + 1, more, columns)
  {
    forall r | 0 <= r < 3 * th ensures RowOf(th, p, y) == r <==> PlaneOf(th, r) == p && LineOf(th, r) == y {
      PlaneLaws(th, r, p, y);
    }
    hide RowOf, PlaneOf, LineOf;
  }

  lemma PlanesInRange(th: int)
    ensures forall r :: 0 <= r < 3 * th ==> 0 <= PlaneOf(th, r) < 3
  {
  }

  // ---------- the letterboxer ----------

  datatype Outcome = Fitted(transform: Transform) | EmptyImage | OutputTooSmall

  /** The tables of one axis, with positions multiplied by `factor`. */
  ghost predicate IsAxis(lo: seq<int>, hi: seq<int>, weight: seq<real>, size: int, resized: int, factor: int) {
    && 0 <= resized && |lo| == |hi| == |weight| == resized
    && forall d :: 0 <= d < resized ==>
         lo[d] == TapOf(size, resized, d).lo * factor && hi[d] == TapOf(size, resized, d).hi * factor
         && weight[d] == TapOf(size, resized, d).weight
  }

  /** Build the tables of one axis. */
  method BuildAxis(size: int, resized: int, factor: int) returns (lo: seq<int>, hi: seq<int>, weight: seq<real>)
    requires size > 0 && resized >= 0
    ensures IsAxis(lo, hi, weight, size, resized, factor)
  {
    hide Position;
    lo, hi, weight := [], [], [];
    var d := 0;
    while d < resized
      invariant 0 <= d <= resized && |lo| == |hi| == |weight| == d
      invariant forall k :: 0 <= k < d ==>
        lo[k] == TapOf(size, resized, k).lo * factor && hi[k] == TapOf(size, resized, k).hi * factor
        && weight[k] == TapOf(size, resized, k).weight
    {
      var position := Position(size, resized, d);
      var low := position.Floor;
      var w := position - low as real;
      if low < 0 {
        low, w := 0, 0.0;
      }
      var high := low + 1;
      if low >= size - 1 {
        low, high, w := size - 1, size - 1, 0.0;
      }
      assert TapOf(size, resized, d) == Tap(low, high, w);
      lo, hi, weight := lo + [low * factor], hi + [high * factor], weight + [w];
      d := d + 1;
    }
  }

  /** One value: four bytes, blended along both axes. */
  method Interpolate(v: ImageView, ghost ty: Tap, ghost tx: Tap, c: int, row0: int, row1: int, xl: int,
      xr: int, wx: real, wy: real)
    returns (value: real)
    requires v.Valid() && TapWithin(ty, v.height) && TapWithin(tx, v.width) && 0 <= c < Channels(v.format)
    requires row0 == ty.lo * v.stride && row1 == ty.hi * v.stride && wy == ty.weight
    requires xl == tx.lo * Channels(v.format) && xr == tx.hi * Channels(v.format) && wx == tx.weight
    ensures value == Sample(v, ty, tx, c)
  {
    PixelInBounds(v, ty.lo, tx.lo, c);
    PixelInBounds(v, ty.lo, tx.hi, c);
    PixelInBounds(v, ty.hi, tx.lo, c);
    PixelInBounds(v, ty.hi, tx.hi, c);
    hide Channels, Blend;
    var upper := Blend(v.data[row0 + (xl + c)] as real, v.data[row0 + (xr + c)] as real, wx);
    var lower := Blend(v.data[row1 + (xl + c)] as real, v.data[row1 + (xr + c)] as real, wx);
    value := Blend(upper, lower, wy) / 255.0;
  }

  /** A cell of the image, line dy and column dx of the content. */
  lemma ExpectedSample(job: Job, p: int, dy: int, dx: int)
    requires job.Valid() && 0 <= p < 3
    requires 0 <= dy < job.Geometry().resizedHeight && 0 <= dx < job.Geometry().resizedWidth
    ensures var t := job.Geometry();
      var ty := TapOf(job.view.height, t.resizedHeight, dy);
      var tx := TapOf(job.view.width, t.resizedWidth, dx);
      && TapWithin(ty, job.view.height) && TapWithin(tx, job.view.width)
      && 0 <= ChannelOfPlane(job.view.format, p) < Channels(job.view.format)
      && 0 <= RowOf(job.th, p, t.padY + dy) < 3 * job.th
      && job.ExpectedInRow(RowOf(job.th, p, t.padY + dy), t.padX + dx)
         == Sample(job.view, ty, tx, ChannelOfPlane(job.view.format, p))
  {
    hide Sample, TransformOf, TapOf, Ratio;
    var t := job.Geometry();
    ContentFits(job.view.width, job.view.height, job.tw, job.th);
    TapInRange(job.view.height, t.resizedHeight, dy);
    TapInRange(job.view.width, t.resizedWidth, dx);
    ChannelInRange(job.view.format, p);
    PlaneLaws(job.th, 0, p, t.padY + dy);
    ExpectedByPlane(job, RowOf(job.th, p, t.padY + dy), t.padX + dx);
  }

  /** A job's tables. */
  ghost predicate HasTables(job: Job, xLeft: seq<int>, xRight: seq<int>, xWeight: seq<real>,
      yTop: seq<int>, yBottom: seq<int>, yWeight: seq<real>)
    requires !job.view.Empty()
  {
    && IsAxis(xLeft, xRight, xWeight, job.view.width, job.Geometry().resizedWidth, Channels(job.view.format))
    && IsAxis(yTop, yBottom, yWeight, job.view.height, job.Geometry().resizedHeight, 1)
  }

  /** Columns of the content, from the left margin to dx. */
  ghost function Reached(left: int, right: int, tw: int, dx: int): set<int> {
    Columns(0, left) + Columns(right, tw) + Columns(left, left + dx)
  }

  lemma NextColumn(left: int, right: int, tw: int, dx: int)
    requires 0 <= dx && left + dx < right
    ensures Reached(left, right, tw, dx) + {left + dx} == Reached(left, right, tw, dx + 1)
    ensures left + dx !in Reached(left, right, tw, dx)
  {
  }

  lemma AllColumns(left: int, right: int, tw: int)
    requires 0 <= left <= right <= tw
    ensures Reached(left, right, tw, right - left) == Columns(0, tw)
    ensures Reached(left, right, tw, 0) == Columns(0, left) + Columns(right, tw)
  {
  }

  /** One column of an image line, in all three planes. */
  method WriteColumn(job: Job, out: array<real>, xLeft: seq<int>, xRight: seq<int>, xWeight: seq<real>,
      yTop: seq<int>, yBottom: seq<int>, yWeight: seq<real>, t: Transform, dy: int, dx: int,
      ghost before: seq<set<int>>, ghost done: seq<set<int>>)
    returns (ghost done': seq<set<int>>)
    requires job.Valid() && HasTables(job, xLeft, xRight, xWeight, yTop, yBottom, yWeight)
    requires t == job.Geometry()
    requires 0 <= dy < t.resizedHeight && 0 <= dx < t.resizedWidth
    requires Fits(t.resizedWidth, t.padX, job.tw) && Fits(t.resizedHeight, t.padY, job.th)
    requires |done| == |before| == 3 * job.th && Right(job, out[..], done)
    requires var x := Reached(t.padX, t.padX + t.resizedWidth, job.tw, dx);
      LineProgress(done, before, job.th, t.padY + dy, 0, {}, x)
    modifies out
    ensures |done'| == 3 * job.th && Right(job, out[..], done')
    ensures var x := Reached(t.padX, t.padX + t.resizedWidth, job.tw, dx + 1);
      LineProgress(done', before, job.th, t.padY + dy, 0, {}, x)
    ensures forall i :: 3 * job.th * job.tw <= i < out.Length ==> out[i] == old(out[i])
  {
    hide Right, Job.ExpectedInRow, Columns, TransformOf, RowOf, PlaneOf, LineOf, Reached, Sample,
      TapOf, LineProgress;
    ghost var x := Reached(t.padX, t.padX + t.resizedWidth, job.tw, dx);
    ghost var x' := Reached(t.padX, t.padX + t.resizedWidth, job.tw, dx + 1);
    NextColumn(t.padX, t.padX + t.resizedWidth, job.tw, dx);
    ghost var ty, tx := TapOf(job.view.height, t.resizedHeight, dy), TapOf(job.view.width, t.resizedWidth, dx);
    var row0, row1 := yTop[dy] * job.view.stride, yBottom[dy] * job.view.stride;
    done' := done;
    StartOfColumn(done, before, job.th, t.padY + dy, x, x');
    var p := 0;
    while p < 3
      invariant 0 <= p <= 3 && |done'| == 3 * job.th && Right(job, out[..], done')
      invariant LineProgress(done', before, job.th, t.padY + dy, p, x', x)
      invariant forall i :: 3 * job.th * job.tw <= i < out.Length ==> out[i] == old(out[i])
    {
      ExpectedSample(job, p, dy, dx);
      var c := ChannelOfPlane(job.view.format, p);
      var value := Interpolate(job.view, ty, tx, c, row0, row1, xLeft[dx], xRight[dx], xWeight[dx], yWeight[dy]);
      var r := RowOf(job.th, p, t.padY + dy);
      ghost var entry := done';
      ThisPlane(entry, before, job.th, t.padY + dy, p, x', x);
      done' := Write(job, out, job.tw, r, t.padX + dx, value, done');
      NextPlane(entry, done', before, job.th, t.padY + dy, p, x', x);
      p := p + 1;
    }
    EndOfColumn(done', before, job.th, t.padY + dy, x, x');
  }

  lemma ThisPlane(done: seq<set<int>>, before: seq<set<int>>, th: int, y: int, p: int, more: set<int>,
      columns: set<int>)
    requires |done| == |before| == 3 * th && 0 <= p < 3 && 0 <= y < th
    requires LineProgress(done, before, th, y, p, more, columns)
    ensures 0 <= RowOf(th, p, y) < |done| && done[RowOf(th, p, y)] == columns
  {
    PlaneLaws(th, 0, p, y);
  }

  lemma StartOfColumn(done: seq<set<int>>, before: seq<set<int>>, th: int, y: int, x: set<int>, x': set<int>)
    requires |done| == |before| == 3 * th && LineProgress(done, before, th, y, 0, {}, x)
    ensures LineProgress(done, before, th, y, 0, x', x)
  {
    PlanesInRange(th);
    hide PlaneOf, LineOf;
  }

  lemma EndOfColumn(done: seq<set<int>>, before: seq<set<int>>, th: int, y: int, x: set<int>, x': set<int>)
    requires |done| == |before| == 3 * th && LineProgress(done, before, th, y, 3, x', x)
    ensures LineProgress(done, before, th, y, 0, {}, x')
  {
    PlanesInRange(th);
    hide PlaneOf, LineOf;
  }

  lemma LineFinished(done: seq<set<int>>, before: seq<set<int>>, th: int, tw: int, top: int, bottom: int, y: int)
    requires |done| == |before| == 3 * th && top <= y < bottom
    requires LinesDone(before, th, tw, top, bottom, y)
    requires LineProgress(done, before, th, y, 0, {}, Columns(0, tw))
    ensures LinesDone(done, th, tw, top, bottom, y + 1)
  {
    PlanesInRange(th);
    hide PlaneOf, LineOf, Columns;
  }

  /** One line of the image, with its margins. */
  method WriteLine(job: Job, out: array<real>, xLeft: seq<int>, xRight: seq<int>, xWeight: seq<real>,
      yTop: seq<int>, yBottom: seq<int>, yWeight: seq<real>, t: Transform, dy: int, ghost before: seq<set<int>>)
    returns (ghost done: seq<set<int>>)
    requires job.Valid() && HasTables(job, xLeft, xRight, xWeight, yTop, yBottom, yWeight)
    requires t == job.Geometry()
    requires 0 <= dy < t.resizedHeight && Fits(t.resizedWidth, t.padX, job.tw)
    requires Fits(t.resizedHeight, t.padY, job.th)
    requires |before| == 3 * job.th && Right(job, out[..], before)
    requires LinesDone(before, job.th, job.tw, t.padY, t.padY + t.resizedHeight, t.padY + dy)
    modifies out
    ensures |done| == 3 * job.th && Right(job, out[..], done)
    ensures LinesDone(done, job.th, job.tw, t.padY, t.padY + t.resizedHeight, t.padY + dy + 1)
    ensures forall i :: 3 * job.th * job.tw <= i < out.Length ==> out[i] == old(out[i])
  {
    hide Right, Columns, TransformOf, PlaneOf, LineOf, LineProgress, Reached, HasTables;
    ghost var left, right := t.padX, t.padX + t.resizedWidth;
    AllColumns(left, right, job.tw);
    done := FillMargins(job, out, job.tw, job.th, t.padY + dy, t.padX, t.padX + t.resizedWidth, job.pad, before);
    EndOfColumn(done, before, job.th, t.padY + dy, {}, Reached(left, right, job.tw, 0));
    var dx := 0;
    while dx < t.resizedWidth
      invariant 0 <= dx <= t.resizedWidth && |done| == 3 * job.th && Right(job, out[..], done)
      invariant LineProgress(done, before, job.th, t.padY + dy, 0, {}, Reached(left, right, job.tw, dx))
      invariant forall i :: 3 * job.th * job.tw <= i < out.Length ==> out[i] == old(out[i])
    {
      done := WriteColumn(job, out, xLeft, xRight, xWeight, yTop, yBottom, yWeight, t, dy, dx, before, done);
      dx := dx + 1;
    }
    LineFinished(done, before, job.th, job.tw, t.padY, t.padY + t.resizedHeight, t.padY + dy);
  }

  /** Every cell of the tensor holds what belongs there. */
  ghost predicate Complete(job: Job, out: seq<real>)
    requires job.Valid()
  {
    && |out| >= 3 * job.th * job.tw
    && forall p, y, x :: 0 <= p < 3 && 0 <= y < job.th && 0 <= x < job.tw ==> HoldsExpected(job, out, p, y, x)
  }

  ghost predicate HoldsExpected(job: Job, out: seq<real>, p: int, y: int, x: int)
    requires job.Valid() && 0 <= p < 3
  {
    0 <= CellAt(job.tw, RowOf(job.th, p, y), x) < |out|
      && out[CellAt(job.tw, RowOf(job.th, p, y), x)] == job.Expected(p, y, x)
  }

  lemma AllLinesDone(job: Job, out: seq<real>, done: seq<set<int>>, top: int, bottom: int)
    requires job.Valid() && |done| == 3 * job.th && Right(job, out, done)
    requires LinesDone(done, job.th, job.tw, top, bottom, bottom)
    ensures Complete(job, out)
    ensures forall r :: 0 <= r < |done| ==> done[r] == Columns(0, job.tw)
  {
    hide Job.ExpectedInRow, Job.Expected, CellAt, RowIn, ColumnIn;
    forall p, y, x | 0 <= p < 3 && 0 <= y < job.th && 0 <= x < job.tw ensures HoldsExpected(job, out, p, y, x) {
      var r := RowOf(job.th, p, y);
      PlaneLaws(job.th, r, p, y);
      CellLaws(job.tw, 3 * job.th, r, x);
      assert CellIsRight(job, out, done, CellAt(job.tw, r, x));
      ExpectedByPlane(job, r, x);
    }
  }

  class Letterboxer {
    const targetWidth: int
    const targetHeight: int
    const padValue: real
    var transform: Transform
    var preparedWidth: int
    var preparedHeight: int
    var preparedFormat: PixelFormat
    var xLeft: seq<int>
    var xRight: seq<int>
    var xWeight: seq<real>
    var yTop: seq<int>
    var yBottom: seq<int>
    var yWeight: seq<real>
    ghost var builds: nat // how often the tables have been built

    /** The cached tables are those of the size and format they were last prepared for. */
    ghost predicate Prepared(width: int, height: int, format: PixelFormat)
      requires width > 0 && height > 0
      reads this
    {
      && transform == TransformOf(width, height, targetWidth, targetHeight)
      && IsAxis(xLeft, xRight, xWeight, width, transform.resizedWidth, Channels(format))
      && IsAxis(yTop, yBottom, yWeight, height, transform.resizedHeight, 1)
    }

    ghost predicate Valid()
      reads this
    {
      && targetWidth > 0 && targetHeight > 0 && 0.0 <= padValue <= 1.0
      && (preparedWidth != -1 ==>
            preparedWidth > 0 && preparedHeight > 0 && Prepared(preparedWidth, preparedHeight, preparedFormat))
    }

    /** `Prepare` has nothing to do for a source of this size and format. */
    predicate Cached(width: int, height: int, format: PixelFormat)
      reads this
    {
      width == preparedWidth && height == preparedHeight && format == preparedFormat
    }

    constructor (targetWidth: int, targetHeight: int, padByte: int)
      requires targetWidth > 0 && targetHeight > 0 && 0 <= padByte <= 255
      ensures Valid() && this.targetWidth == targetWidth && this.targetHeight == targetHeight
      ensures padValue == padByte as real / 255.0
    {
      this.targetWidth, this.targetHeight := targetWidth, targetHeight;
      padValue := padByte as real / 255.0;
      transform := Transform(1.0, 0, 0, 0, 0, 0, 0);
      preparedWidth, preparedHeight, preparedFormat := -1, -1, Bgr8;
      xLeft, xRight, xWeight, yTop, yBottom, yWeight := [], [], [], [], [], [];
      builds := 0;
    }

    /** A letterboxer, or None where the source throws: both target dimensions must be positive. */
    static method Create(targetWidth: int, targetHeight: int, padByte: int) returns (r: Option<Letterboxer>)
      requires 0 <= padByte <= 255
      ensures r.None? <==> targetWidth <= 0 || targetHeight <= 0
      ensures r.Some? ==> fresh(r.value) && r.value.Valid() && r.value.padValue == padByte as real / 255.0
      ensures r.Some? ==> r.value.targetWidth == targetWidth && r.value.targetHeight == targetHeight
    {
      if targetWidth <= 0 || targetHeight <= 0 {
        return None;
      }
      var l := new Letterboxer(targetWidth, targetHeight, padByte);
      r := Some(l);
    }

    /** Build the tables, unless those in the cache are already of this size and format. */
    method Prepare(width: int, height: int, format: PixelFormat)
      requires Valid() && width > 0 && height > 0
      modifies this
      ensures Valid() && Prepared(width, height, format) && Cached(width, height, format)
      ensures builds == old(builds) + if old(Cached(width, height, format)) then 0 else 1
      ensures old(Cached(width, height, format)) ==>
        && transform == old(transform)
        && xLeft == old(xLeft) && xRight == old(xRight) && xWeight == old(xWeight)
        && yTop == old(yTop) && yBottom == old(yBottom) && yWeight == old(yWeight)
    {
      hide TransformOf, IsAxis, Fits, ComputeLetterbox;
      if width == preparedWidth && height == preparedHeight && format == preparedFormat {
        return;
      }
      ComputesTransform(width, height, targetWidth, targetHeight);
      var computed := ComputeLetterbox(width, height, targetWidth, targetHeight);
      transform := computed.value;
      xLeft, xRight, xWeight := BuildAxis(width, transform.resizedWidth, Channels(format));
      yTop, yBottom, yWeight := BuildAxis(height, transform.resizedHeight, 1);
      preparedWidth, preparedHeight, preparedFormat := width, height, format;
      builds := builds + 1;
    }

    /** The tensor has three planes of the target's size. */
    function TensorSize(): int
      reads this
    {
      3 * targetHeight * targetWidth
    }

    /**
      Fit an image into the tensor. Every cell ends up with what the image and the target alone
      determine, whatever this letterboxer has been used for before; nothing beyond the tensor is
      touched. `done` collects the cells written, row by row: all of them in the end, and none
      twice, as `Write` demands.
     */
    method Run(view: ImageView, out: array<real>) returns (r: Outcome, ghost done: seq<set<int>>)
      requires Valid() && (!view.Empty() ==> view.Valid())
      modifies this, out
      ensures Valid()
      ensures r.EmptyImage? <==> view.Empty()
      ensures r.OutputTooSmall? <==> !view.Empty() && out.Length < TensorSize()
      ensures !r.Fitted? ==> out[..] == old(out[..])
      ensures forall i :: 0 <= TensorSize() <= i < out.Length ==> out[i] == old(out[i])
      ensures !r.Fitted? ==> builds == old(builds)
      ensures r.Fitted? ==>
        builds == old(builds) + if old(Cached(view.width, view.height, view.format)) then 0 else 1
      ensures r.Fitted? ==>
        var job := Job(view, targetWidth, targetHeight, padValue);
        job.Valid() && r.transform == job.Geometry() && Complete(job, out[..])
      ensures r.Fitted? ==>
        |done| == 3 * targetHeight && forall k :: 0 <= k < |done| ==> done[k] == Columns(0, targetWidth)
    {
      hide TransformOf, IsAxis, Right, Columns, LinesDone, BarsDone, Complete;
      done := [];
      if view.Empty() {
        r := EmptyImage;
        return;
      }
      if out.Length < TensorSize() {
        r := OutputTooSmall;
        return;
      }
      Prepare(view.width, view.height, view.format);
      var job := Job(view, targetWidth, targetHeight, padValue);
      ContentFits(view.width, view.height, targetWidth, targetHeight);
      var top := transform.padY;
      var bottom := top + transform.resizedHeight;
      done := seq(3 * targetHeight, _ => {});
      NothingWritten(job, out[..], done);
      NoBarsDone(done, targetHeight, targetWidth, top, bottom);
      var p := 0;
      while p < 3
        invariant 0 <= p <= 3 && |done| == 3 * targetHeight && Right(job, out[..], done)
        invariant BarsDone(done, targetHeight, targetWidth, top, bottom, p)
        invariant forall i :: TensorSize() <= i < out.Length ==> out[i] == old(out[i])
        modifies out
      {
        done := FillBars(job, out, targetWidth, targetHeight, top, bottom, padValue, p, done);
        p := p + 1;
      }
      BarsAreLines(done, targetHeight, targetWidth, top, bottom);
      var dy := 0;
      while dy < transform.resizedHeight
        invariant 0 <= dy <= transform.resizedHeight && |done| == 3 * targetHeight && Right(job, out[..], done)
        invariant LinesDone(done, targetHeight, targetWidth, top, bottom, top + dy)
        invariant forall i :: TensorSize() <= i < out.Length ==> out[i] == old(out[i])
        modifies out
      {
        done := WriteLine(job, out, xLeft, xRight, xWeight, yTop, yBottom, yWeight, transform, dy, done);
        dy := dy + 1;
      }
      AllLinesDone(job, out[..], done, top, bottom);
      r := Fitted(transform);
    }
  }

  lemma NoBarsDone(done: seq<set<int>>, th: int, tw: int, top: int, bottom: int)
    requires |done| == 3 * th && forall r :: 0 <= r < |done| ==> done[r] == {}
    ensures BarsDone(done, th, tw, top, bottom, 0)
  {
    PlanesInRange(th);
    hide PlaneOf, LineOf;
  }

  lemma BarsAreLines(done: seq<set<int>>, th: int, tw: int, top: int, bottom: int)
    requires |done| == 3 * th && top <= bottom && BarsDone(done, th, tw, top, bottom, 3)
    ensures LinesDone(done, th, tw, top, bottom, top)
  {
    PlanesInRange(th);
    hide PlaneOf, LineOf, Columns;
  }

  /** Values are in range: every cell of a finished tensor is between 0 and 1. */
  lemma TensorInRange(job: Job, out: seq<real>, p: int, y: int, x: int)
    requires job.Valid() && 0.0 <= job.pad <= 1.0 && Complete(job, out)
    requires 0 <= p < 3 && 0 <= y < job.th && 0 <= x < job.tw
    ensures HoldsExpected(job, out, p, y, x) && 0.0 <= out[CellAt(job.tw, RowOf(job.th, p, y), x)] <= 1.0
  {
    hide Job.Expected, CellAt, RowOf;
    assert HoldsExpected(job, out, p, y, x);
    ExpectedInRange(job, p, y, x);
  }

  /** A tensor that is complete for a job is the only one. */
  lemma HistoryDoesNotMatter(job: Job, a: seq<real>, b: seq<real>, i: int)
    requires job.Valid() && Complete(job, a) && Complete(job, b) && 0 <= i < 3 * job.th * job.tw
    ensures a[i] == b[i]
  {
    hide Job.Expected, CellAt, RowIn, ColumnIn;
    CellOf(job.tw, 3 * job.th, i);
    var r, x := RowIn(job.tw, i), ColumnIn(job.tw, i);
    PlaneLaws(job.th, r, 0, 0);
    assert HoldsExpected(job, a, PlaneOf(job.th, r), LineOf(job.th, r), x);
    assert HoldsExpected(job, b, PlaneOf(job.th, r), LineOf(job.th, r), x);
  }

  /** Fit one image after the other into the same tensor, as a letterboxer does over its life. */
  method FitAll(l: Letterboxer, views: seq<ImageView>, out: array<real>)
    requires l.Valid() && forall v :: v in views && !v.Empty() ==> v.Valid()
    modifies l, out
    ensures l.Valid()
  {
    var i := 0;
    while i < |views|
      invariant 0 <= i <= |views| && l.Valid()
    {
      var _, _ := l.Run(views[i], out);
      i := i + 1;
    }
  }

  /**
    Two letterboxers for the same target, each with a past of its own, and one image: they return
    the same outcome, and the tensors they fill are equal cell by cell.
   */
  method FitAfterPasts(tw: int, th: int, padByte: int, pasts: (seq<ImageView>, seq<ImageView>), view: ImageView,
      a: array<real>, b: array<real>)
    returns (ra: Outcome, rb: Outcome)
    requires tw > 0 && th > 0 && 0 <= padByte <= 255 && a != b
    requires forall v :: v in pasts.0 + pasts.1 + [view] && !v.Empty() ==> v.Valid()
    modifies a, b
    ensures (a.Length >= 3 * th * tw <==> b.Length >= 3 * th * tw) ==> ra == rb
    ensures ra.Fitted? && rb.Fitted? ==>
      && ra == rb && a.Length >= 3 * th * tw && b.Length >= 3 * th * tw
      && forall i :: 0 <= i < 3 * th * tw ==> a[i] == b[i]
  {
    hide TransformOf, Complete, Columns;
    var first := new Letterboxer(tw, th, padByte);
    var second := new Letterboxer(tw, th, padByte);
    FitAll(first, pasts.0, a);
    FitAll(second, pasts.1, b);
    ghost var done;
    ra, done := first.Run(view, a);
    rb, done := second.Run(view, b);
    if ra.Fitted? && rb.Fitted? {
      ghost var job := Job(view, tw, th, padByte as real / 255.0);
      ghost var ta, tb := a[..], b[..];
      forall i | 0 <= i < 3 * th * tw ensures ta[i] == tb[i] {
        HistoryDoesNotMatter(job, ta, tb, i);
      }
    }
  }

  // ---------- two things a user can check by eye ----------

  /** The colour that a channel of an image holds: 0 is red, 1 is green, 2 is blue. */
  function ColourOf(f: PixelFormat, c: int): int {
    if f.Bgr8? then 2 - c else c
  }

  /** The planes are red, green and blue, whatever the order of the source; a grey image fills all three. */
  lemma PlanesAreRgb(f: PixelFormat, p: int)
    requires 0 <= p < 3
    ensures !f.Gray8? ==> ColourOf(f, ChannelOfPlane(f, p)) == p
    ensures f.Gray8? ==> ChannelOfPlane(f, p) == 0
  {
  }

  lemma RatioOfSame(size: int)
    requires size > 0
    ensures Ratio(size, size) == 1.0
  {
  }

  lemma TapOfSame(size: int, d: int)
    requires 0 <= d < size
    ensures TapOf(size, size, d).lo == d && TapOf(size, size, d).weight == 0.0
  {
    RatioOfSame(size);
    assert size as real / size as real == 1.0;
    assert Position(size, size, d) == (d as real + 0.5) * 1.0 - 0.5 == d as real;
    hide Position;
    assert (d as real).Floor == d;
  }

  lemma GeometryOfSame(job: Job)
    requires job.Valid() && job.view.width == job.tw && job.view.height == job.th
    ensures job.Geometry() == Transform(1.0, 0, 0, job.tw, job.th, job.tw, job.th)
  {
    RatioOfSame(job.tw);
    RatioOfSame(job.th);
    ContentFits(job.tw, job.th, job.tw, job.th);
    hide Ratio, Padding;
    assert Resized(job.tw, 1.0) == job.tw && Resized(job.th, 1.0) == job.th;
  }

  lemma BlendOfNothing(a: real, b: real)
    ensures Blend(a, b, 0.0) == a
  {
  }

  /** An image of the target's size is not interpolated: each cell is its pixel's byte, scaled. */
  lemma SameSizeIsExact(job: Job, p: int, y: int, x: int)
    requires job.Valid() && job.view.width == job.tw && job.view.height == job.th
    requires 0 <= p < 3 && 0 <= y < job.th && 0 <= x < job.tw
    ensures var at := ByteAt(job.view, y, x, ChannelOfPlane(job.view.format, p));
      0 <= at < |job.view.data| && job.Expected(p, y, x) == job.view.data[at] as real / 255.0
  {
    hide TapOf, TransformOf, ByteAt, Blend;
    var v, c := job.view, ChannelOfPlane(job.view.format, p);
    GeometryOfSame(job);
    TapOfSame(job.th, y);
    TapOfSame(job.tw, x);
    TapInRange(job.th, job.th, y);
    TapInRange(job.tw, job.tw, x);
    ChannelInRange(v.format, p);
    var ty, tx := TapOf(job.th, job.th, y), TapOf(job.tw, job.tw, x);
    PixelInBounds(v, ty.lo, tx.lo, c);
    PixelInBounds(v, ty.lo, tx.hi, c);
    PixelInBounds(v, ty.hi, tx.lo, c);
    PixelInBounds(v, ty.hi, tx.hi, c);
    var a, b := v.data[ByteAt(v, ty.lo, tx.lo, c)] as real, v.data[ByteAt(v, ty.lo, tx.hi, c)] as real;
    var d, e := v.data[ByteAt(v, ty.hi, tx.lo, c)] as real, v.data[ByteAt(v, ty.hi, tx.hi, c)] as real;
    BlendOfNothing(a, b);
    BlendOfNothing(d, e);
    BlendOfNothing(a, d);
  }
}
