/**
  What a letterboxed image looks like, told by what it does to images: mirroring an image mirrors
  its content; shrinking by whole factors takes the middle of each block; and an even slope stays
  an even slope.
 */
module LetterboxSampling {
  import opened Detections
  import opened Letterbox

  // ---------- one axis ----------

  /** What a tap reads off a row of values. */
  ghost function Read(g: int -> real, t: Tap): real {
    Blend(g(t.lo), g(t.hi), t.weight)
  }

  lemma BlendEnds(a: real, b: real, w: real)
    ensures Blend(a, b, 0.0) == a && Blend(b, a, 1.0 - w) == Blend(a, b, w)
  {
  }

  /** Positions counted from the other end. */
  lemma PositionMirrors(size: int, resized: int, d: int)
    requires size > 0 && resized > 0
    ensures Position(size, resized, resized - 1 - d) == (size - 1) as real - Position(size, resized, d)
  {
    var q := size as real / resized as real;
    assert resized as real * q == size as real;
    var x := d as real + 0.5;
    assert (resized - 1 - d) as real + 0.5 == resized as real - x;
    assert (resized as real - x) * q == resized as real * q - x * q;
  }

  lemma FloorMirrors(p: real, n: int)
    ensures p == p.Floor as real ==> (n as real - p).Floor == n - p.Floor
    ensures p != p.Floor as real ==> (n as real - p).Floor == n - 1 - p.Floor
  {
  }

  /** A tap from the other end reads the same off the reversed row. */
  lemma TapMirrors(g: int -> real, h: int -> real, size: int, resized: int, d: int)
    requires size > 0 && resized > 0 && forall x :: 0 <= x < size ==> h(x) == g(size - 1 - x)
    ensures Read(h, TapOf(size, resized, d)) == Read(g, TapOf(size, resized, resized - 1 - d))
  {
    hide Position, Blend;
    var p := Position(size, resized, d);
    PositionMirrors(size, resized, d);
    FloorMirrors(p, size - 1);
    var s, t := TapOf(size, resized, d), TapOf(size, resized, resized - 1 - d);
    TapInRange(size, resized, d);
    TapInRange(size, resized, resized - 1 - d);
    BlendEnds(h(s.lo), h(s.hi), s.weight);
    BlendEnds(g(t.lo), g(t.hi), t.weight);
  }

  /** Shrunk by a whole factor k, a tap reads the middle of its block of k, or between the middle two. */
  lemma TapOfBlock(g: int -> real, k: int, resized: int, d: int)
    requires k > 0 && 0 <= d < resized
    ensures var first := k * d;
      Read(g, TapOf(k * resized, resized, d)) == (g(first + (k - 1) / 2) + g(first + k / 2)) / 2.0
  {
    BlockPosition(k, resized, d);
    var half := (k - 1) as real / 2.0;
    var p := Position(k * resized, resized, d);
    BlockFits(k, resized, d);
    if k % 2 == 1 {
      assert half == ((k - 1) / 2) as real && k / 2 == (k - 1) / 2;
      assert p == (k * d + (k - 1) / 2) as real;
    } else {
      assert half == ((k - 1) / 2) as real + 0.5 && k / 2 == (k - 1) / 2 + 1;
      assert p == (k * d + (k - 1) / 2) as real + 0.5;
    }
    hide Position;
    assert p.Floor == k * d + (k - 1) / 2;
  }

  lemma BlockFits(k: int, resized: int, d: int)
    requires k > 0 && 0 <= d < resized
    ensures 0 <= k * d && k * d + k <= k * resized
  {
    var rest := resized - d - 1;
    assert k * rest >= 0 && k * d >= 0;
    assert k * resized == k * rest + k * d + k;
  }

  lemma BlockPosition(k: int, resized: int, d: int)
    requires k > 0 && 0 <= d < resized
    ensures k * resized > 0
    ensures Position(k * resized, resized, d) == (k * d) as real + (k - 1) as real / 2.0
  {
    BlockFits(k, resized, d);
    var q, r := (k * resized) as real / resized as real, resized as real;
    assert (k * resized) as real == k as real * r;
    assert q == k as real by { Cancels(k as real, r); }
    assert (k * d) as real == k as real * d as real;
    assert (d as real + 0.5) * q == k as real * d as real + 0.5 * k as real;
  }

  lemma Cancels(x: real, y: real)
    requires y != 0.0
    ensures (x * y) / y == x
  {
  }

  /** On an even slope a tap reads the value at its position, as long as that is between two pixels. */
  lemma TapOnSlope(g: int -> real, slope: real, size: int, resized: int, d: int)
    requires size > 0 && resized > 0 && 0.0 <= Position(size, resized, d) <= (size - 1) as real
    requires forall x :: 0 <= x < size ==> g(x) == g(0) + slope * x as real
    ensures Read(g, TapOf(size, resized, d)) == g(0) + slope * Position(size, resized, d)
  {
    var p := Position(size, resized, d);
    TapInRange(size, resized, d);
    hide Position;
    var t := TapOf(size, resized, d);
    assert g(t.lo) == g(0) + slope * t.lo as real && g(t.hi) == g(0) + slope * t.hi as real;
    if t.lo < size - 1 {
      assert t.hi == t.lo + 1 && t.weight == p - t.lo as real;
      SlopeBlends(g(0), slope, t.lo as real, t.weight);
    } else {
      assert p == t.lo as real;
    }
  }

  lemma SlopeBlends(a: real, slope: real, x: real, w: real)
    ensures Blend(a + slope * x, a + slope * (x + 1.0), w) == a + slope * (x + w)
  {
    assert slope * (x + 1.0) == slope * x + slope;
    assert slope * (x + w) == slope * x + slope * w;
  }

  lemma OddTimes(d: int, size: int, resized: int, q: real)
    requires resized as real * q == size as real
    ensures (d as real + 0.5) * q - 0.5 == ((2 * d + 1) as real * q - 1.0) / 2.0
    ensures ((2 * d + 1) as real * q) * resized as real == ((2 * d + 1) * size) as real
  {
    var a := (2 * d + 1) as real;
    assert a * (q * resized as real) == (a * q) * resized as real;
    assert a * size as real == ((2 * d + 1) * size) as real;
    assert (d as real + 0.5) * q == (a / 2.0) * q == (a * q) / 2.0;
  }

  lemma Crossed(y: real, r: int, n: int, b: int)
    requires r > 0 && y * r as real == n as real
    ensures y >= b as real <==> n >= b * r
    ensures y <= b as real <==> n <= b * r
  {
    Compared(y, b as real, r as real);
    assert (b * r) as real == b as real * r as real;
  }

  lemma OddPosition(size: int, resized: int, d: int) returns (y: real)
    requires size > 0 && resized > 0
    ensures Position(size, resized, d) == (y - 1.0) / 2.0
    ensures y * resized as real == ((2 * d + 1) * size) as real
  {
    var q := size as real / resized as real;
    assert resized as real * q == size as real;
    OddTimes(d, size, resized, q);
    y := (2 * d + 1) as real * q;
  }

  /** Whether position d is between two pixels, in whole numbers. */
  lemma PositionBetween(size: int, resized: int, d: int)
    requires size > 0 && resized > 0
    ensures 0.0 <= Position(size, resized, d) <==> resized <= (2 * d + 1) * size
    ensures Position(size, resized, d) <= (size - 1) as real <==> (2 * d + 1) * size <= (2 * size - 1) * resized
  {
    hide Position;
    var y := OddPosition(size, resized, d);
    Crossed(y, resized, (2 * d + 1) * size, 1);
    Crossed(y, resized, (2 * d + 1) * size, 2 * size - 1);
  }

  lemma PositionsAreEven(size: int, resized: int, d: int)
    requires size > 0 && resized > 0
    ensures Position(size, resized, d + 1) - Position(size, resized, d) == size as real / resized as real
  {
    var q, x := size as real / resized as real, d as real + 0.5;
    assert (d + 1) as real + 0.5 == x + 1.0;
    assert (x + 1.0) * q == x * q + q;
  }

  lemma Compared(a: real, b: real, r: real)
    requires r > 0.0
    ensures a * r <= b * r <==> a <= b
    ensures b * r <= a * r <==> b <= a
  {
    if a < b {
      assert (b - a) * r > 0.0;
    } else if b < a {
      assert (a - b) * r > 0.0;
    }
  }

  // ---------- both axes ----------

  /** A byte of an image as a number, 0 outside. */
  ghost function ByteOf(v: ImageView, y: int, x: int, c: int): real {
    if 0 <= ByteAt(v, y, x, c) < |v.data| then v.data[ByteAt(v, y, x, c)] as real else 0.0
  }

  /** A row, and what a column tap makes of the rows. */
  ghost function RowValues(v: ImageView, y: int, c: int): int -> real {
    x => ByteOf(v, y, x, c)
  }

  ghost function ReadRows(v: ImageView, tx: Tap, c: int): int -> real {
    y => Read(RowValues(v, y, c), tx)
  }

  /** A sample reads along the rows, then across them. */
  lemma SampleReads(v: ImageView, ty: Tap, tx: Tap, c: int)
    requires v.Valid() && TapWithin(ty, v.height) && TapWithin(tx, v.width) && 0 <= c < Channels(v.format)
    ensures Sample(v, ty, tx, c) == Read(ReadRows(v, tx, c), ty) / 255.0
  {
    hide Blend, ByteAt;
    PixelInBounds(v, ty.lo, tx.lo, c);
    PixelInBounds(v, ty.lo, tx.hi, c);
    PixelInBounds(v, ty.hi, tx.lo, c);
    PixelInBounds(v, ty.hi, tx.hi, c);
  }

  /** What belongs into a cell of the content. */
  lemma ContentReads(job: Job, p: int, dy: int, dx: int)
    requires job.Valid() && 0 <= p < 3
    requires 0 <= dy < job.Geometry().resizedHeight && 0 <= dx < job.Geometry().resizedWidth
    ensures var t, c := job.Geometry(), ChannelOfPlane(job.view.format, p);
      job.Expected(p, t.padY + dy, t.padX + dx) ==
      Read(ReadRows(job.view, TapOf(job.view.width, t.resizedWidth, dx), c),
           TapOf(job.view.height, t.resizedHeight, dy)) / 255.0
  {
    hide TapOf, Sample, TransformOf, Read, ReadRows;
    var t, c := job.Geometry(), ChannelOfPlane(job.view.format, p);
    TapInRange(job.view.height, t.resizedHeight, dy);
    TapInRange(job.view.width, t.resizedWidth, dx);
    ChannelInRange(job.view.format, p);
    SampleReads(job.view, TapOf(job.view.height, t.resizedHeight, dy), TapOf(job.view.width, t.resizedWidth, dx), c);
  }

  ghost predicate SameShape(a: ImageView, b: ImageView) {
    a.width == b.width && a.height == b.height && a.format == b.format
  }

  /** b is a seen in a mirror standing beside it. Their rows may be padded differently. */
  ghost predicate MirroredAcross(a: ImageView, b: ImageView) {
    SameShape(a, b) && forall y, x, c :: 0 <= y < a.height && 0 <= x < a.width && 0 <= c < Channels(a.format) ==>
      ByteOf(b, y, x, c) == ByteOf(a, y, a.width - 1 - x, c)
  }

  /** b is a seen in a mirror lying below it. */
  ghost predicate MirroredDown(a: ImageView, b: ImageView) {
    SameShape(a, b) && forall y, x, c :: 0 <= y < a.height && 0 <= x < a.width && 0 <= c < Channels(a.format) ==>
      ByteOf(b, y, x, c) == ByteOf(a, a.height - 1 - y, x, c)
  }

  /** Jobs alike but for the image. */
  ghost predicate Alike(a: Job, b: Job) {
    a.Valid() && b.Valid() && a.tw == b.tw && a.th == b.th && a.pad == b.pad && SameShape(a.view, b.view)
  }

  /** Mirroring an image left to right mirrors its content. */
  lemma MirrorAcross(a: Job, b: Job, p: int, dy: int, dx: int)
    requires Alike(a, b) && MirroredAcross(a.view, b.view) && 0 <= p < 3
    requires 0 <= dy < a.Geometry().resizedHeight && 0 <= dx < a.Geometry().resizedWidth
    ensures var t := a.Geometry();
      b.Expected(p, t.padY + dy, t.padX + dx) == a.Expected(p, t.padY + dy, t.padX + t.resizedWidth - 1 - dx)
  {
    hide TapOf, TransformOf, Job.Expected, Blend, ByteOf;
    var t, c := a.Geometry(), ChannelOfPlane(a.view.format, p);
    ChannelInRange(a.view.format, p);
    ContentReads(a, p, dy, t.resizedWidth - 1 - dx);
    ContentReads(b, p, dy, dx);
    TapInRange(a.view.height, t.resizedHeight, dy);
    var ty := TapOf(a.view.height, t.resizedHeight, dy);
    forall y | y == ty.lo || y == ty.hi
      ensures Read(RowValues(b.view, y, c), TapOf(a.view.width, t.resizedWidth, dx))
        == Read(RowValues(a.view, y, c), TapOf(a.view.width, t.resizedWidth, t.resizedWidth - 1 - dx))
    {
      TapMirrors(RowValues(a.view, y, c), RowValues(b.view, y, c), a.view.width, t.resizedWidth, dx);
    }
  }

  /** Mirroring an image top to bottom mirrors its content. */
  lemma MirrorDown(a: Job, b: Job, p: int, dy: int, dx: int)
    requires Alike(a, b) && MirroredDown(a.view, b.view) && 0 <= p < 3
    requires 0 <= dy < a.Geometry().resizedHeight && 0 <= dx < a.Geometry().resizedWidth
    ensures var t := a.Geometry();
      b.Expected(p, t.padY + dy, t.padX + dx) == a.Expected(p, t.padY + t.resizedHeight - 1 - dy, t.padX + dx)
  {
    hide TapOf, TransformOf, Job.Expected, Blend, ByteOf;
    var t, c := a.Geometry(), ChannelOfPlane(a.view.format, p);
    ChannelInRange(a.view.format, p);
    ContentReads(a, p, t.resizedHeight - 1 - dy, dx);
    ContentReads(b, p, dy, dx);
    TapInRange(a.view.width, t.resizedWidth, dx);
    var tx := TapOf(a.view.width, t.resizedWidth, dx);
    TapMirrors(ReadRows(a.view, tx, c), ReadRows(b.view, tx, c), a.view.height, t.resizedHeight, dy);
  }

  /**
    Shrunk by whole factors, each cell is the mean of the pixels in the middle of its block: one, two
    or four of them, as the factors are odd or even.
   */
  lemma BlocksAreSampledInTheMiddle(job: Job, p: int, k: int, m: int, dy: int, dx: int)
    requires job.Valid() && 0 <= p < 3 && k > 0 && m > 0
    requires 0 <= dy < job.Geometry().resizedHeight && 0 <= dx < job.Geometry().resizedWidth
    requires job.view.width == k * job.Geometry().resizedWidth && job.view.height == m * job.Geometry().resizedHeight
    ensures var t, c, v := job.Geometry(), ChannelOfPlane(job.view.format, p), job.view;
      var left, right := k * dx + (k - 1) / 2, k * dx + k / 2;
      var upper, lower := m * dy + (m - 1) / 2, m * dy + m / 2;
      job.Expected(p, t.padY + dy, t.padX + dx) ==
      (ByteOf(v, upper, left, c) + ByteOf(v, upper, right, c) + ByteOf(v, lower, left, c) + ByteOf(v, lower, right, c))
      / 4.0 / 255.0
  {
    hide TapOf, TransformOf, Job.Expected, Blend, ByteOf;
    var t, c, v := job.Geometry(), ChannelOfPlane(job.view.format, p), job.view;
    ContentReads(job, p, dy, dx);
    var tx := TapOf(v.width, t.resizedWidth, dx);
    TapOfBlock(ReadRows(v, tx, c), m, t.resizedHeight, dy);
    TapOfBlock(RowValues(v, m * dy + (m - 1) / 2, c), k, t.resizedWidth, dx);
    TapOfBlock(RowValues(v, m * dy + m / 2, c), k, t.resizedWidth, dx);
  }

  lemma BetweenTwo(d: int, size: int, resized: int)
    requires size > 0 && resized > 0 && d >= 0
    ensures resized <= (2 * d + 1) * size ==> resized <= (2 * (d + 1) + 1) * size
    ensures (2 * d + 3) * size <= (2 * size - 1) * resized ==> (2 * d + 1) * size <= (2 * size - 1) * resized
  {
    assert (2 * d + 3) * size == (2 * d + 1) * size + 2 * size;
  }

  lemma BlendShifts(a: real, b: real, s: real, w: real)
    ensures Blend(a + s, b + s, w) == Blend(a, b, w) + s
  {
  }

  /** Every row rises by the same amount from pixel to pixel. */
  ghost predicate RisesAcross(v: ImageView, c: int, slope: real) {
    forall y, x :: 0 <= y < v.height && 0 <= x < v.width ==>
      ByteOf(v, y, x, c) == ByteOf(v, y, 0, c) + slope * x as real
  }

  /** A position between pixel centres, in whole numbers. */
  ghost predicate Between(size: int, resized: int, d: int) {
    resized <= (2 * d + 1) * size <= (2 * size - 1) * resized
  }

  /** How far an even slope has risen at a position. */
  ghost function Rise(slope: real, size: int, resized: int, d: int): real
    requires resized > 0
  {
    slope * Position(size, resized, d)
  }

  /** One row, read at such a position. */
  lemma RowOnSlope(v: ImageView, y: int, c: int, slope: real, r: int, dx: int)
    requires 0 <= y < v.height && v.width > 0 && RisesAcross(v, c, slope) && r > 0 && Between(v.width, r, dx)
    ensures Read(RowValues(v, y, c), TapOf(v.width, r, dx)) == ByteOf(v, y, 0, c) + Rise(slope, v.width, r, dx)
  {
    hide TapOf, Read, ByteOf, Position;
    PositionBetween(v.width, r, dx);
    TapOnSlope(RowValues(v, y, c), slope, v.width, r, dx);
  }

  lemma BlendsRows(v: ImageView, ty: Tap, tx: Tap, c: int)
    ensures Read(ReadRows(v, tx, c), ty)
      == Blend(Read(RowValues(v, ty.lo, c), tx), Read(RowValues(v, ty.hi, c), tx), ty.weight)
  {
    hide Blend, RowValues;
  }

  /** All rows, read there. */
  lemma CellOnSlope(job: Job, p: int, slope: real, dy: int, dx: int)
    requires job.Valid() && 0 <= p < 3 && RisesAcross(job.view, ChannelOfPlane(job.view.format, p), slope)
    requires 0 <= dy < job.Geometry().resizedHeight && 0 <= dx < job.Geometry().resizedWidth
    requires Between(job.view.width, job.Geometry().resizedWidth, dx)
    ensures var t, c, v := job.Geometry(), ChannelOfPlane(job.view.format, p), job.view;
      var ty := TapOf(v.height, t.resizedHeight, dy);
      job.Expected(p, t.padY + dy, t.padX + dx) ==
      (Blend(ByteOf(v, ty.lo, 0, c), ByteOf(v, ty.hi, 0, c), ty.weight) + Rise(slope, v.width, t.resizedWidth, dx))
      / 255.0
  {
    hide TapOf, TransformOf, Job.Expected, Blend, ByteOf, Position, RisesAcross, Between, Read, ReadRows, RowValues,
      Rise;
    var t, c, v := job.Geometry(), ChannelOfPlane(job.view.format, p), job.view;
    ContentReads(job, p, dy, dx);
    TapInRange(v.height, t.resizedHeight, dy);
    var ty, tx := TapOf(v.height, t.resizedHeight, dy), TapOf(v.width, t.resizedWidth, dx);
    RowOnSlope(v, ty.lo, c, slope, t.resizedWidth, dx);
    RowOnSlope(v, ty.hi, c, slope, t.resizedWidth, dx);
    BlendShifts(ByteOf(v, ty.lo, 0, c), ByteOf(v, ty.hi, 0, c), Rise(slope, v.width, t.resizedWidth, dx), ty.weight);
    BlendsRows(v, ty, tx, c);
  }

  /**
    An even slope stays one: where an image rises evenly from left to right, so does its content from
    cell to cell, in proportion to the sizes, wherever both cells lie between pixel centres.
   */
  lemma SlopesStayEven(job: Job, p: int, slope: real, dy: int, dx: int)
    requires job.Valid() && 0 <= p < 3 && RisesAcross(job.view, ChannelOfPlane(job.view.format, p), slope)
    requires 0 <= dy < job.Geometry().resizedHeight && 0 <= dx && dx + 1 < job.Geometry().resizedWidth
    requires job.Geometry().resizedWidth <= (2 * dx + 1) * job.view.width
    requires (2 * dx + 3) * job.view.width <= (2 * job.view.width - 1) * job.Geometry().resizedWidth
    ensures var t := job.Geometry();
      job.Expected(p, t.padY + dy, t.padX + dx + 1) - job.Expected(p, t.padY + dy, t.padX + dx)
      == slope * (job.view.width as real / t.resizedWidth as real) / 255.0
  {
    hide TapOf, TransformOf, Job.Expected, Blend, ByteOf, Position, RisesAcross, Rise;
    var t, c, v := job.Geometry(), ChannelOfPlane(job.view.format, p), job.view;
    var s, r := v.width, t.resizedWidth;
    BetweenTwo(dx, s, r);
    CellOnSlope(job, p, slope, dy, dx);
    CellOnSlope(job, p, slope, dy, dx + 1);
    RiseIsEven(slope, s, r, dx);
  }

  lemma RiseIsEven(slope: real, size: int, resized: int, d: int)
    requires size > 0 && resized > 0
    ensures Rise(slope, size, resized, d + 1) - Rise(slope, size, resized, d)
      == slope * (size as real / resized as real)
  {
    hide Position;
    PositionsAreEven(size, resized, d);
    var x, step := Position(size, resized, d), size as real / resized as real;
    assert Position(size, resized, d + 1) == x + step;
    assert slope * (x + step) == slope * x + slope * step;
  }

  /**
    An image of the target's size, byte by byte: plane 0 holds the reds, plane 1 the greens, plane 2
    the blues, whichever of them comes first in a pixel, and each plane all of a grey image.
   */
  lemma BytesGoToTheirPlanes(job: Job, p: int, y: int, x: int)
    requires job.Valid() && job.view.width == job.tw && job.view.height == job.th
    requires 0 <= p < 3 && 0 <= y < job.th && 0 <= x < job.tw
    ensures var v := job.view;
      var at := y * v.stride + match v.format {
        case Gray8 => x
        case Rgb8 => 3 * x + p
        case Bgr8 => 3 * x + 2 - p
      };
      0 <= at < |v.data| && job.Expected(p, y, x) == v.data[at] as real / 255.0
  {
    hide Job.Expected;
    SameSizeIsExact(job, p, y, x);
    match job.view.format
    case Gray8 =>
    case Rgb8 =>
    case Bgr8 =>
  }

  /** No two bytes of an image are the same byte of its data. */
  lemma BytesAreApart(v: ImageView, y1: int, x1: int, c1: int, y2: int, x2: int, c2: int)
    requires v.Valid() && 0 <= y1 < v.height && 0 <= x1 < v.width && 0 <= c1 < Channels(v.format)
    requires 0 <= y2 < v.height && 0 <= x2 < v.width && 0 <= c2 < Channels(v.format)
    requires ByteAt(v, y1, x1, c1) == ByteAt(v, y2, x2, c2)
    ensures y1 == y2 && x1 == x2 && c1 == c2
  {
    var n := Channels(v.format);
    WithinRow(x1, c1, v.width, n);
    WithinRow(x2, c2, v.width, n);
    Digits(y1, x1 * n + c1, y2, x2 * n + c2, v.stride);
    Digits(x1, c1, x2, c2, n);
  }

  lemma WithinRow(x: int, c: int, width: int, n: int)
    requires 0 <= x < width && 0 <= c < n
    ensures 0 <= x * n + c < width * n
  {
    RowsApart(x, width, n);
    RowsApart(0, x + 1, n);
  }

  lemma RowsApart(a: int, b: int, n: int)
    requires a < b && n > 0
    ensures a * n + n <= b * n
  {
    var d := b - a - 1;
    assert b == a + d + 1;
    assert b * n == a * n + d * n + n;
    AtLeastZero(d, n);
  }

  lemma AtLeastZero(d: int, n: int)
    requires d >= 0 && n >= 0
    ensures d * n >= 0
  {
  }

  lemma Digits(a: int, r: int, b: int, s: int, n: int)
    requires a * n + r == b * n + s && 0 <= r < n && 0 <= s < n
    ensures a == b && r == s
  {
    if a < b {
      RowsApart(a, b, n);
      assert false;
    } else if b < a {
      RowsApart(b, a, n);
      assert false;
    }
  }

  // ---------- finished tensors ----------

  /** The same of the tensors that two runs have filled. */
  lemma TensorsMirror(a: Job, b: Job, out: seq<real>, mirrored: seq<real>, p: int, dy: int, dx: int)
    requires Alike(a, b) && Complete(a, out) && Complete(b, mirrored) && 0 <= p < 3
    requires 0 <= dy < a.Geometry().resizedHeight && 0 <= dx < a.Geometry().resizedWidth
    ensures var t := a.Geometry();
      var here := CellAt(a.tw, RowOf(a.th, p, t.padY + dy), t.padX + dx);
      var across := CellAt(a.tw, RowOf(a.th, p, t.padY + dy), t.padX + t.resizedWidth - 1 - dx);
      var down := CellAt(a.tw, RowOf(a.th, p, t.padY + t.resizedHeight - 1 - dy), t.padX + dx);
      && 0 <= here < |mirrored| && 0 <= across < |out| && 0 <= down < |out|
      && (MirroredAcross(a.view, b.view) ==> mirrored[here] == out[across])
      && (MirroredDown(a.view, b.view) ==> mirrored[here] == out[down])
  {
    hide TransformOf, Job.Expected, CellAt, RowOf, MirroredAcross, MirroredDown;
    var t := a.Geometry();
    ContentFits(a.view.width, a.view.height, a.tw, a.th);
    assert HoldsExpected(b, mirrored, p, t.padY + dy, t.padX + dx);
    assert HoldsExpected(a, out, p, t.padY + dy, t.padX + t.resizedWidth - 1 - dx);
    assert HoldsExpected(a, out, p, t.padY + t.resizedHeight - 1 - dy, t.padX + dx);
    if MirroredAcross(a.view, b.view) {
      MirrorAcross(a, b, p, dy, dx);
    }
    if MirroredDown(a.view, b.view) {
      MirrorDown(a, b, p, dy, dx);
    }
  }

  // ---------- where the image lies in the tensor ----------

  lemma RoundingIsClose(x: real)
    ensures -0.5 <= Lround(x) as real - x <= 0.5
  {
  }

  /**
    The corners of an image are mapped to the corners of its content, the lower right one within half
    a pixel; and nothing is ever mapped back outside the image.
   */
  lemma ImageMapsToContent(sw: int, sh: int, tw: int, th: int, b: Box)
    requires sw > 0 && sh > 0 && tw > 0 && th > 0
    ensures ComputeLetterbox(sw, sh, tw, th).Some?
    ensures var t := ComputeLetterbox(sw, sh, tw, th).value;
      var image := ToModel(t, WholeBox(0, 0, sw, sh));
      && image.x1 == t.padX as real && image.y1 == t.padY as real
      && -0.5 <= image.x2 - (t.padX + t.resizedWidth) as real <= 0.5
      && -0.5 <= image.y2 - (t.padY + t.resizedHeight) as real <= 0.5
    ensures var t := ComputeLetterbox(sw, sh, tw, th).value;
      && t.scale != 0.0
      && var back := ToSource(t, b);
         && 0.0 <= back.x1 <= sw as real && 0.0 <= back.x2 <= sw as real
         && 0.0 <= back.y1 <= sh as real && 0.0 <= back.y2 <= sh as real
         && (0.0 <= b.x1 <= sw as real && 0.0 <= b.x2 <= sw as real
             && 0.0 <= b.y1 <= sh as real && 0.0 <= b.y2 <= sh as real ==>
               ToSource(t, ToModel(t, b)) == b)
  {
    hide FitRatio, Padding, Lround, Backward;
    ComputesTransform(sw, sh, tw, th);
    var t := ComputeLetterbox(sw, sh, tw, th).value;
    RoundingIsClose(Scaled(sw, t.scale));
    RoundingIsClose(Scaled(sh, t.scale));
    RoundTripClips(t, b);
  }
}
