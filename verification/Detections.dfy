/** Boxes, their overlap, and scored detections. */
module Detections {
  /** An axis-aligned box, from corner (x1, y1) to corner (x2, y2). */
  datatype Box = Box(x1: real, y1: real, x2: real, y2: real) {
    function Width(): real { x2 - x1 }
    function Height(): real { y2 - y1 }
    function CenterX(): real { 0.5 * (x1 + x2) }
    function CenterY(): real { 0.5 * (y1 + y2) }
    function Area(): real { Max(0.0, Width()) * Max(0.0, Height()) }
  }

  datatype Detection = Detection(box: Box, score: real, classId: int)

  function Max(a: real, b: real): real { if a < b then b else a }
  function Min(a: real, b: real): real { if b < a then b else a }

  function FromCenter(cx: real, cy: real, w: real, h: real): Box {
    Box(cx - 0.5 * w, cy - 0.5 * h, cx + 0.5 * w, cy + 0.5 * h)
  }

  function Intersection(a: Box, b: Box): real {
    Max(0.0, Min(a.x2, b.x2) - Max(a.x1, b.x1)) * Max(0.0, Min(a.y2, b.y2) - Max(a.y1, b.y1))
  }

  /** Intersection over union; 0 if the union has no area. */
  function Iou(a: Box, b: Box): real {
    var inter := Intersection(a, b);
    var union := a.Area() + b.Area() - inter;
    if union > 0.0 then inter / union else 0.0
  }

  lemma ProductMonotone(a: real, b: real, c: real, d: real)
    requires 0.0 <= a <= c && 0.0 <= b <= d
    ensures 0.0 <= a * b <= c * d
  {
    assert a * b <= c * b <= c * d;
  }

  lemma IntersectionSymmetric(a: Box, b: Box)
    ensures Intersection(a, b) == Intersection(b, a)
  {
  }

  lemma IntersectionWithin(a: Box, b: Box)
    ensures 0.0 <= Intersection(a, b) <= a.Area()
  {
    ProductMonotone(
      Max(0.0, Min(a.x2, b.x2) - Max(a.x1, b.x1)), Max(0.0, Min(a.y2, b.y2) - Max(a.y1, b.y1)),
      Max(0.0, a.Width()), Max(0.0, a.Height()));
  }

  lemma QuotientBetween(x: real, d: real)
    requires 0.0 <= x <= d && 0.0 < d
    ensures 0.0 <= x / d <= 1.0
  {
  }

  /** Overlap is symmetric and between 0 and 1, whatever the corners of the boxes. */
  lemma IouRange(a: Box, b: Box)
    ensures Iou(a, b) == Iou(b, a)
    ensures 0.0 <= Iou(a, b) <= 1.0
  {
    IntersectionSymmetric(a, b);
    IntersectionWithin(a, b);
    IntersectionWithin(b, a);
    hide Intersection, Box.Area;
    var inter := Intersection(a, b);
    var union := a.Area() + b.Area() - inter;
    if union > 0.0 {
      QuotientBetween(inter, union);
    }
  }

  lemma StrictProduct(x: real, y: real, z: real)
    requires x < y && z > 0.0
    ensures x * z < y * z && z * x < z * y
  {
  }

  /** Equal products of positive numbers that are no larger have equal factors. */
  lemma FactorsEqual(a: real, b: real, c: real, d: real)
    requires 0.0 <= a <= c && 0.0 <= b <= d && 0.0 < c && 0.0 < d && a * b == c * d
    ensures a == c && b == d
  {
    ProductMonotone(a, b, a, d);
    if a < c {
      StrictProduct(a, c, d);
    } else if b < d {
      StrictProduct(b, d, c);
    }
  }

  lemma QuotientIsOne(x: real, d: real)
    requires d > 0.0
    ensures x / d == 1.0 <==> x == d
  {
  }

  /** Boxes with an extent overlap completely only if they are the same box. */
  lemma IouIsOne(a: Box, b: Box)
    requires a.Width() > 0.0 && a.Height() > 0.0 && b.Width() > 0.0 && b.Height() > 0.0
    ensures Iou(a, b) == 1.0 <==> a == b
  {
    IntersectionWithin(a, b);
    IntersectionWithin(b, a);
    IntersectionSymmetric(a, b);
    AreaPositive(a);
    var inter := Intersection(a, b);
    var union := a.Area() + b.Area() - inter;
    QuotientIsOne(inter, union);
    if inter == union {
      FullOverlap(a, b);
      FullOverlap(b, a);
    } else if a == b {
      SelfOverlap(a);
    }
  }

  lemma AreaPositive(a: Box)
    requires a.Width() > 0.0 && a.Height() > 0.0
    ensures a.Area() == a.Width() * a.Height() > 0.0
  {
  }

  lemma SelfOverlap(a: Box)
    ensures Intersection(a, a) == a.Area()
  {
  }

  lemma FullOverlap(a: Box, b: Box)
    requires a.Width() > 0.0 && a.Height() > 0.0 && Intersection(a, b) == a.Area()
    ensures b.x1 <= a.x1 && a.x2 <= b.x2 && b.y1 <= a.y1 && a.y2 <= b.y2
  {
    var iw, ih := Max(0.0, Min(a.x2, b.x2) - Max(a.x1, b.x1)), Max(0.0, Min(a.y2, b.y2) - Max(a.y1, b.y1));
    AreaPositive(a);
    FactorsEqual(iw, ih, a.Width(), a.Height());
  }

  // ---------- overlap, by counting ----------

  /** A box with whole corners. */
  function WholeBox(x1: int, y1: int, x2: int, y2: int): Box {
    Box(x1 as real, y1 as real, x2 as real, y2 as real)
  }

  /** The unit cells that it covers. */
  ghost function Cells(x1: int, y1: int, x2: int, y2: int): (s: set<(int, int)>)
    ensures forall x, y :: (x, y) in s <==> x1 <= x < x2 && y1 <= y < y2
  {
    set x, y | x1 <= x < x2 && y1 <= y < y2 :: (x, y)
  }

  ghost function Stripe(x: int, y1: int, y2: int): (s: set<(int, int)>)
    ensures forall u, v :: (u, v) in s <==> u == x && y1 <= v < y2
  {
    set y | y1 <= y < y2 :: (x, y)
  }

  lemma {:induction false} StripeCount(x: int, y1: int, y2: int)
    requires y1 <= y2
    ensures |Stripe(x, y1, y2)| == y2 - y1
    decreases y2 - y1
  {
    if y1 < y2 {
      StripeCount(x, y1, y2 - 1);
      assert Stripe(x, y1, y2) == Stripe(x, y1, y2 - 1) + {(x, y2 - 1)};
    } else {
      assert Stripe(x, y1, y2) == {};
    }
  }

  lemma {:induction false} CellCount(x1: int, y1: int, x2: int, y2: int)
    requires x1 <= x2 && y1 <= y2
    ensures |Cells(x1, y1, x2, y2)| == (x2 - x1) * (y2 - y1)
    decreases x2 - x1
  {
    if x1 < x2 {
      CellCount(x1, y1, x2 - 1, y2);
      StripeCount(x2 - 1, y1, y2);
      assert Cells(x1, y1, x2, y2) == Cells(x1, y1, x2 - 1, y2) + Stripe(x2 - 1, y1, y2);
      assert (x2 - x1) * (y2 - y1) == (x2 - 1 - x1) * (y2 - y1) + (y2 - y1);
    } else {
      assert Cells(x1, y1, x2, y2) == {};
    }
  }

  function Least(a: int, b: int): int { if a < b then a else b }
  function Greatest(a: int, b: int): int { if a < b then b else a }

  lemma WholeIntersection(x1: int, y1: int, x2: int, y2: int, u1: int, v1: int, u2: int, v2: int)
    ensures var w, h := Least(x2, u2) - Greatest(x1, u1), Least(y2, v2) - Greatest(y1, v1);
      Intersection(WholeBox(x1, y1, x2, y2), WholeBox(u1, v1, u2, v2))
      == (if w < 0 then 0 else w) as real * (if h < 0 then 0 else h) as real
  {
  }

  lemma WholeProduct(w: int, h: int)
    ensures (w * h) as real == w as real * h as real
  {
  }

  lemma CellsMeet(x1: int, y1: int, x2: int, y2: int, u1: int, v1: int, u2: int, v2: int)
    ensures Cells(x1, y1, x2, y2) * Cells(u1, v1, u2, v2) ==
      Cells(Greatest(x1, u1), Greatest(y1, v1), Least(x2, u2), Least(y2, v2))
    ensures x1 > x2 || y1 > y2 ==> Cells(x1, y1, x2, y2) == {}
  {
  }

  /** The area of the common part is the number of common cells, also if there is none. */
  lemma CommonCells(x1: int, y1: int, x2: int, y2: int, u1: int, v1: int, u2: int, v2: int)
    requires x1 <= x2 && y1 <= y2 && u1 <= u2 && v1 <= v2
    ensures Intersection(WholeBox(x1, y1, x2, y2), WholeBox(u1, v1, u2, v2))
      == |Cells(x1, y1, x2, y2) * Cells(u1, v1, u2, v2)| as real
  {
    hide Intersection, Cells, Least, Greatest;
    var a, b, c, d := Greatest(x1, u1), Greatest(y1, v1), Least(x2, u2), Least(y2, v2);
    WholeIntersection(x1, y1, x2, y2, u1, v1, u2, v2);
    CellsMeet(x1, y1, x2, y2, u1, v1, u2, v2);
    CellsMeet(a, b, c, d, a, b, c, d);
    if a <= c && b <= d {
      CellCount(a, b, c, d);
      WholeProduct(c - a, d - b);
    }
  }

  lemma WholeArea(x1: int, y1: int, x2: int, y2: int)
    requires x1 <= x2 && y1 <= y2
    ensures WholeBox(x1, y1, x2, y2).Area() == |Cells(x1, y1, x2, y2)| as real
  {
    CellCount(x1, y1, x2, y2);
    WholeProduct(x2 - x1, y2 - y1);
  }

  /** Overlap is the number of cells that both boxes cover, out of those that either covers. */
  lemma IouCountsCells(x1: int, y1: int, x2: int, y2: int, u1: int, v1: int, u2: int, v2: int)
    requires x1 <= x2 && y1 <= y2 && u1 <= u2 && v1 <= v2
    ensures var p, q := Cells(x1, y1, x2, y2), Cells(u1, v1, u2, v2);
      var overlap := Iou(WholeBox(x1, y1, x2, y2), WholeBox(u1, v1, u2, v2));
      if p + q == {} then overlap == 0.0 else overlap == |p * q| as real / |p + q| as real
  {
    hide Cells, Intersection, Box.Area;
    WholeArea(x1, y1, x2, y2);
    WholeArea(u1, v1, u2, v2);
    CommonCells(x1, y1, x2, y2, u1, v1, u2, v2);
    var p, q := Cells(x1, y1, x2, y2), Cells(u1, v1, u2, v2);
    assert |p + q| == |p| + |q| - |p * q|;
  }
}
