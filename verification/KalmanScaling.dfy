/**
  The filter treats near and far objects alike: measured in other pixels, it does the same. All
  noise scales with the height of the box, so enlarging an image enlarges means and covariances
  with it, and changes nothing else.
 */
module KalmanScaling {
  import opened SmallMatrix
  import opened Detections
  import opened BoxKalmanFilter

  /** Entries 2 and 6, the aspect ratio and its velocity, have no unit; all others are in pixels. */
  function Weight(l: real, i: nat): real {
    if i == 2 || i == 6 then 1.0 else l
  }

  function ScaledColumn(l: real, x: Matrix, n: nat): (y: Matrix)
    requires IsMatrix(x, n, 1)
    ensures IsMatrix(y, n, 1) && forall i :: 0 <= i < n ==> y[i][0] == Mul(x[i][0], Weight(l, i))
  {
    seq(n, i requires 0 <= i < n => [Mul(x[i][0], Weight(l, i))])
  }

  /** A covariance scales with both of its entries. */
  function ScaledSquare(l: real, p: Matrix, n: nat): (q: Matrix)
    requires IsMatrix(p, n, n)
    ensures IsMatrix(q, n, n)
    ensures forall i, j :: 0 <= i < n && 0 <= j < n ==> q[i][j] == Mul(p[i][j], Mul(Weight(l, i), Weight(l, j)))
  {
    seq(n, i requires 0 <= i < n => seq(n, j requires 0 <= j < n => Mul(p[i][j], Mul(Weight(l, i), Weight(l, j)))))
  }

  function Scaled(l: real, s: State): (t: State)
    requires s.Shaped()
    ensures t.Shaped()
  {
    State(ScaledColumn(l, s.mean, 8), ScaledSquare(l, s.covariance, 8))
  }

  function ScaledBox(l: real, b: Box): Box {
    Box(b.x1 * l, b.y1 * l, b.x2 * l, b.y2 * l)
  }

  // ---------- boxes and first estimates ----------

  lemma SidesScale(l: real, b: Box)
    ensures var c := ScaledBox(l, b);
      && c.Height() == Mul(b.Height(), l) && c.Width() == Mul(b.Width(), l)
      && c.CenterX() == Mul(b.CenterX(), l) && c.CenterY() == Mul(b.CenterY(), l)
  {
  }

  /** A scaled box is measured as scaled. */
  lemma MeasurementScales(l: real, b: Box)
    requires l > 0.0
    ensures ToMeasurement(ScaledBox(l, b)) == ScaledColumn(l, ToMeasurement(b), 4)
  {
    hide Mul, ScaledBox, Box.Height, Box.Width, Box.CenterX, Box.CenterY;
    SidesScale(l, b);
    RatioScales(l, b.Width(), b.Height());
    var z, y := ToMeasurement(ScaledBox(l, b)), ScaledColumn(l, ToMeasurement(b), 4);
    TimesUnit(ToMeasurement(b)[2][0]);
    forall i | 0 <= i < 4 ensures z[i] == y[i] {
      assert |z[i]| == |y[i]| == 1 && z[i][0] == y[i][0];
    }
  }

  /** A scaled mean is shown as a scaled box. */
  lemma BoxScales(l: real, mean: Matrix)
    requires IsMatrix(mean, 8, 1)
    ensures ToBox(ScaledColumn(l, mean, 8)) == ScaledBox(l, ToBox(mean))
  {
    var h, w := mean[3][0], mean[2][0] * mean[3][0];
    assert mean[2][0] * (h * l) == w * l;
    assert 0.5 * (w * l) == (0.5 * w) * l && 0.5 * (h * l) == (0.5 * h) * l;
    assert ScaledColumn(l, mean, 8)[2][0] == mean[2][0];
  }

  lemma RatioScales(l: real, w: real, h: real)
    requires l > 0.0
    ensures h > 0.0 <==> Mul(h, l) > 0.0
    ensures h > 0.0 ==> Mul(w, l) / Mul(h, l) == w / h
  {
    if h > 0.0 {
      var q := w / h;
      assert w == q * h;
      assert w * l == q * (h * l);
    }
  }

  lemma SquareScales(l: real, a: real)
    ensures Square(a * l) == Mul(Square(a), Mul(l, l))
  {
  }

  lemma TimesOne(x: real)
    ensures Mul(x, Mul(1.0, 1.0)) == x
  {
  }

  /** The noise scales like a covariance. */
  lemma NoiseScales(l: real, h: real)
    ensures forall i :: 0 <= i < 8 ==>
      InitialVariances(Mul(h, l))[i] == Mul(InitialVariances(h)[i], Mul(Weight(l, i), Weight(l, i)))
    ensures forall i :: 0 <= i < 8 ==>
      ProcessNoise(Mul(h, l))[i] == Mul(ProcessNoise(h)[i], Mul(Weight(l, i), Weight(l, i)))
    ensures forall i :: 0 <= i < 4 ==>
      MeasurementNoise(Mul(h, l))[i] == Mul(MeasurementNoise(h)[i], Mul(Weight(l, i), Weight(l, i)))
  {
    var pos, vel := STD_WEIGHT_POSITION * h, STD_WEIGHT_VELOCITY * h;
    assert STD_WEIGHT_POSITION * Mul(h, l) == pos * l && STD_WEIGHT_VELOCITY * Mul(h, l) == vel * l;
    SquareScales(l, pos);
    SquareScales(l, vel);
    assert 2.0 * (pos * l) == (2.0 * pos) * l && 10.0 * (vel * l) == (10.0 * vel) * l;
    SquareScales(l, 2.0 * pos);
    SquareScales(l, 10.0 * vel);
    TimesOne(Square(0.01));
    TimesOne(Square(0.1));
    TimesOne(Square(0.00001));
    hide Square, Mul;
  }

  lemma MulByZero(w: real)
    ensures Mul(0.0, w) == 0.0
  {
  }

  lemma DiagonalScales(l: real, d: Vector, e: Vector)
    requires |d| == |e| && forall i :: 0 <= i < |d| ==> e[i] == Mul(d[i], Mul(Weight(l, i), Weight(l, i)))
    ensures Diagonal(e) == ScaledSquare(l, Diagonal(d), |d|)
  {
    hide Mul;
    var a, b := Diagonal(e), ScaledSquare(l, Diagonal(d), |d|);
    forall i | 0 <= i < |d| ensures a[i] == b[i] {
      forall j | 0 <= j < |d| ensures a[i][j] == b[i][j] {
        MulByZero(Mul(Weight(l, i), Weight(l, j)));
      }
    }
  }

  /** A track started from a scaled box is the scaled track. */
  lemma InitiateScales(l: real, z: Matrix)
    requires l > 0.0 && IsMatrix(z, 4, 1)
    ensures Initiate(ScaledColumn(l, z, 4)) == Scaled(l, Initiate(z))
  {
    hide InitialVariances, Diagonal, Mul;
    NoiseScales(l, z[3][0]);
    DiagonalScales(l, InitialVariances(z[3][0]), InitialVariances(Mul(z[3][0], l)));
    var a, b := Initiate(ScaledColumn(l, z, 4)).mean, ScaledColumn(l, Initiate(z).mean, 8);
    forall i | 0 <= i < 8 ensures a[i] == b[i] {
      MulByZero(Weight(l, i));
      assert a[i][0] == b[i][0];
    }
  }

  // ---------- prediction ----------

  /** A position has its velocity four entries further on. */
  function Next(p: Matrix, i: nat, j: nat): real
    requires IsMatrix(p, 8, 8) && j < 8
  {
    if i < 4 then p[i + 4][j] else 0.0
  }

  /** The predicted covariance, entry by entry: each position takes in its velocity. */
  lemma PredictedEntry(s: State, i: nat, j: nat)
    requires s.Shaped() && i < 8 && j < 8
    ensures Predicted(s).Shaped()
    ensures var p := s.covariance;
      Predicted(s).covariance[i][j] ==
      p[i][j] + Next(p, i, j) + (if j < 4 then p[i][j + 4] + Next(p, i, j + 4) else 0.0)
      + Diagonal(ProcessNoise(s.Height()))[i][j]
  {
    hide Dot, Mul, ProcessNoise;
    var f, p := MotionModel(), s.covariance;
    var fp := Product(f, p, 8, 8, 8);
    var t := Transposed(f, 8, 8);
    forall c | 0 <= c < 8 ensures fp[i][c] == p[i][c] + Next(p, i, c) {
      MotionRow(f[i], Column(p, c), i);
    }
    assert Column(t, j) == f[j];
    DotCommutes(fp[i], f[j]);
    MotionRow(f[j], fp[i], j);
  }

  lemma PredictedMean(s: State, i: nat)
    requires s.Shaped() && i < 8
    ensures Predicted(s).Shaped()
    ensures Predicted(s).mean[i][0] == s.mean[i][0] + if i < 4 then s.mean[i + 4][0] else 0.0
  {
    hide Dot, Mul, ProcessNoise, Plus;
    MotionRow(MotionModel()[i], Column(s.mean, 0), i);
  }

  /** Both entries of a covariance keep their weights when velocities are taken in. */
  lemma SumScales(a: real, b: real, c: real, d: real, e: real, w: real)
    ensures Mul(a, w) + Mul(b, w) + (Mul(c, w) + Mul(d, w)) + Mul(e, w) == Mul(a + b + (c + d) + e, w)
  {
  }

  lemma CovarianceMoves(l: real, s: State, i: nat, j: nat)
    requires s.Shaped() && i < 8 && j < 8
    ensures Predicted(Scaled(l, s)).Shaped() && Predicted(s).Shaped()
    ensures Predicted(Scaled(l, s)).covariance[i][j]
      == Mul(Predicted(s).covariance[i][j], Mul(Weight(l, i), Weight(l, j)))
  {
    hide Mul, ProcessNoise, Predicted, Diagonal;
    var t := Scaled(l, s);
    PredictedEntry(s, i, j);
    PredictedEntry(t, i, j);
    NoiseScales(l, s.Height());
    DiagonalScales(l, ProcessNoise(s.Height()), ProcessNoise(t.Height()));
    var p, w := s.covariance, Mul(Weight(l, i), Weight(l, j));
    var e := Diagonal(ProcessNoise(s.Height()))[i][j];
    MulByZero(w);
    if j < 4 {
      SumScales(p[i][j], Next(p, i, j), p[i][j + 4], Next(p, i, j + 4), e, w);
    } else {
      SumScales(p[i][j], Next(p, i, j), 0.0, 0.0, e, w);
    }
  }

  /** A prediction of the scaled track is the scaled prediction. */
  lemma PredictionScales(l: real, s: State)
    requires l > 0.0 && s.Shaped()
    ensures Predicted(s).Shaped() && Predicted(Scaled(l, s)) == Scaled(l, Predicted(s))
  {
    hide Mul, Predicted;
    PredictedMean(s, 0);
    PredictedMean(Scaled(l, s), 0);
    var a, b := Predicted(Scaled(l, s)), Scaled(l, Predicted(s));
    forall i | 0 <= i < 8 ensures a.mean[i] == b.mean[i] && a.covariance[i] == b.covariance[i] {
      PredictedMean(s, i);
      PredictedMean(Scaled(l, s), i);
      if i < 4 {
        MulLaws(s.mean[i][0], 0.0, 0.0);
        DistributesOver(s.mean[i][0], s.mean[i + 4][0], Weight(l, i));
      }
      assert a.mean[i][0] == b.mean[i][0];
      forall j | 0 <= j < 8 ensures a.covariance[i][j] == b.covariance[i][j] {
        CovarianceMoves(l, s, i, j);
      }
    }
    assert a.mean == b.mean && a.covariance == b.covariance;
  }

  lemma DistributesOver(x: real, y: real, w: real)
    ensures Mul(x + y, w) == Mul(x, w) + Mul(y, w)
  {
  }

  // ---------- correction ----------

  /** A dot product of which every term is scaled alike. */
  lemma {:induction false} DotScales(x: Vector, y: Vector, v: Vector, w: Vector, k: real)
    requires |x| == |y| == |v| == |w|
    requires forall i :: 0 <= i < |x| ==> Mul(v[i], w[i]) == Mul(k, Mul(x[i], y[i]))
    ensures Dot(v, w) == Mul(k, Dot(x, y))
  {
    hide Mul;
    if |x| == 0 {
      MulLaws(k, 0.0, 0.0);
    } else {
      var n := |x| - 1;
      DotScales(x[..n], y[..n], v[..n], w[..n], k);
      MulLaws(k, Dot(x[..n], y[..n]), Mul(x[n], y[n]));
    }
  }

  /** The vector that a scaled matrix sees. */
  function Weighted(l: real, z: Vector): (y: Vector)
    ensures |y| == |z| && forall i :: 0 <= i < |z| ==> y[i] == Mul(z[i], Weight(l, i))
  {
    seq(|z|, i requires 0 <= i < |z| => Mul(z[i], Weight(l, i)))
  }

  lemma TermScales(m: real, a: real, b: real, z: real)
    ensures Mul(Mul(m, Mul(a, b)), z) == Mul(a, Mul(m, Mul(z, b)))
  {
  }

  lemma FormScales(l: real, m: Matrix, n: nat, z: Vector)
    requires IsMatrix(m, n, n) && |z| == n
    ensures Form(ScaledSquare(l, m, n), z) == Form(m, Weighted(l, z))
  {
    hide Dot, Mul;
    var q, y := ScaledSquare(l, m, n), Weighted(l, z);
    forall r | 0 <= r < n ensures Apply(q, z)[r] == Mul(Weight(l, r), Apply(m, y)[r]) {
      forall c | 0 <= c < n ensures Mul(q[r][c], z[c]) == Mul(Weight(l, r), Mul(m[r][c], y[c])) {
        TermScales(m[r][c], Weight(l, r), Weight(l, c), z[c]);
      }
      DotScales(m[r], y, q[r], z, Weight(l, r));
    }
    forall r | 0 <= r < n ensures Mul(z[r], Apply(q, z)[r]) == Mul(1.0, Mul(y[r], Apply(m, y)[r])) {
      MulLaws(z[r], Weight(l, r), 0.0);
      MulLaws(z[r], Apply(m, y)[r], 0.0);
      MulLaws(z[r], Mul(Weight(l, r), Apply(m, y)[r]), 0.0);
      Reassociate(z[r], Weight(l, r), Apply(m, y)[r]);
    }
    DotScales(y, Apply(m, y), z, Apply(q, z), 1.0);
    OneTimes(Dot(y, Apply(m, y)));
  }

  lemma Reassociate(a: real, b: real, c: real)
    ensures Mul(a, Mul(b, c)) == Mul(1.0, Mul(Mul(a, b), c))
  {
  }

  lemma OneTimes(x: real)
    ensures Mul(1.0, x) == x
  {
  }

  lemma ProductIsZero(x: real, w: real)
    requires w > 0.0 && Mul(x, w) == 0.0
    ensures x == 0.0
  {
  }

  /** Scaling a matrix keeps it definite. */
  lemma DefiniteScales(l: real, m: Matrix, n: nat)
    requires l > 0.0 && IsMatrix(m, n, n) && PositiveDefinite(m)
    ensures PositiveDefinite(ScaledSquare(l, m, n))
  {
    hide Form, Mul;
    var q := ScaledSquare(l, m, n);
    forall z: Vector | |z| == n && z != Zeros(n) ensures Form(q, z) > 0.0 {
      FormScales(l, m, n, z);
      WeightedZeros(l, z);
    }
  }

  lemma WeightedZeros(l: real, z: Vector)
    requires l > 0.0
    ensures Weighted(l, z) == Zeros(|z|) ==> z == Zeros(|z|)
  {
    hide Mul;
    var y := Weighted(l, z);
    if y == Zeros(|z|) {
      forall i | 0 <= i < |z| ensures z[i] == 0.0 {
        assert y[i] == 0.0;
        ProductIsZero(z[i], Weight(l, i));
      }
    }
  }

  lemma ThereAndBack(l: real, x: real, i: nat, j: nat)
    requires l > 0.0
    ensures Mul(Mul(x, Mul(Weight(l, i), Weight(l, j))), Mul(Weight(1.0 / l, i), Weight(1.0 / l, j))) == x
  {
    var k := 1.0 / l;
    assert l * k == 1.0;
    assert Weight(l, i) * Weight(k, i) == 1.0 && Weight(l, j) * Weight(k, j) == 1.0;
    FourFactors(x, Weight(l, i), Weight(l, j), Weight(k, i), Weight(k, j));
  }

  lemma FourFactors(x: real, a: real, b: real, c: real, d: real)
    requires a * c == 1.0 && b * d == 1.0
    ensures Mul(Mul(x, Mul(a, b)), Mul(c, d)) == x
  {
    assert (x * (a * b)) * (c * d) == x * ((a * c) * (b * d));
  }

  lemma ScaledBack(l: real, m: Matrix, n: nat)
    requires l > 0.0 && IsMatrix(m, n, n)
    ensures ScaledSquare(1.0 / l, ScaledSquare(l, m, n), n) == m
  {
    hide Mul, Weight;
    var q := ScaledSquare(1.0 / l, ScaledSquare(l, m, n), n);
    forall i | 0 <= i < n ensures q[i] == m[i] {
      forall j | 0 <= j < n ensures q[i][j] == m[i][j] {
        ThereAndBack(l, m[i][j], i, j);
      }
    }
  }

  lemma InnovationScales(l: real, s: State)
    requires s.Shaped()
    ensures Innovation(Scaled(l, s)) == ScaledSquare(l, Innovation(s), 4)
  {
    hide Mul, MeasurementNoise, Diagonal;
    var a, b := Innovation(Scaled(l, s)), ScaledSquare(l, Innovation(s), 4);
    NoiseScales(l, s.Height());
    var d := Diagonal(MeasurementNoise(s.Height()));
    DiagonalScales(l, MeasurementNoise(s.Height()), MeasurementNoise(Mul(s.Height(), l)));
    forall i | 0 <= i < 4 ensures a[i] == b[i] {
      forall j | 0 <= j < 4 ensures a[i][j] == b[i][j] {
        DistributesOver(s.covariance[i][j], d[i][j], Mul(Weight(l, i), Weight(l, j)));
      }
    }
  }

  lemma DefiniteBothWays(l: real, s: State)
    requires l > 0.0 && s.Shaped()
    ensures PositiveDefinite(Innovation(Scaled(l, s))) <==> PositiveDefinite(Innovation(s))
  {
    hide PositiveDefinite, Mul, Innovation;
    var m := Innovation(s);
    InnovationScales(l, s);
    ScaledBack(l, m, 4);
    if PositiveDefinite(m) {
      DefiniteScales(l, m, 4);
    }
    if PositiveDefinite(ScaledSquare(l, m, 4)) {
      DefiniteScales(1.0 / l, ScaledSquare(l, m, 4), 4);
    }
  }

  /** The gain that goes with the scaled state: from innovations at weight m to entries at weight i. */
  function ScaledGain(l: real, x: Matrix): (y: Matrix)
    requires l > 0.0 && IsMatrix(x, 4, 8)
    ensures IsMatrix(y, 4, 8)
    ensures forall m, i :: 0 <= m < 4 && 0 <= i < 8 ==> y[m][i] == Mul(x[m][i], Mul(Weight(l, i), 1.0 / Weight(l, m)))
  {
    seq(4, m requires 0 <= m < 4 =>
      seq(8, i requires 0 <= i < 8 => Mul(x[m][i], Mul(Weight(l, i), 1.0 / Weight(l, m)))))
  }

  /** The weight at which gain and matrix meet cancels. */
  lemma WeightsCancel(s: real, x: real, r: real, m: real, i: real)
    requires m > 0.0
    ensures Mul(Mul(s, Mul(r, m)), Mul(x, Mul(i, 1.0 / m))) == Mul(Mul(r, i), Mul(s, x))
  {
    var k := 1.0 / m;
    assert m * k == 1.0;
    FiveFactors(s, r, m, x, i, k);
  }

  lemma FiveFactors(s: real, r: real, m: real, x: real, i: real, k: real)
    requires m * k == 1.0
    ensures Mul(Mul(s, Mul(r, m)), Mul(x, Mul(i, k))) == Mul(Mul(r, i), Mul(s, x))
  {
    assert (s * (r * m)) * (x * (i * k)) == ((r * i) * (s * x)) * (m * k);
  }

  lemma GainScales(l: real, s: State, x: Matrix)
    requires l > 0.0 && s.Shaped() && IsGain(s, x)
    ensures IsGain(Scaled(l, s), ScaledGain(l, x))
  {
    hide Mul, Dot, Innovation;
    var q, y, m := Scaled(l, s), ScaledGain(l, x), Innovation(s);
    InnovationScales(l, s);
    var n := ScaledSquare(l, m, 4);
    var g, h := Transposed(Block(s.covariance, 8, 4), 8, 4), Transposed(Block(q.covariance, 8, 4), 8, 4);
    forall i | 0 <= i < 8 ensures Apply(n, Column(y, i)) == Column(h, i) {
      forall r | 0 <= r < 4 ensures Apply(n, Column(y, i))[r] == Column(h, i)[r] {
        forall k | 0 <= k < 4
          ensures Mul(n[r][k], Column(y, i)[k]) ==
            Mul(Mul(Weight(l, r), Weight(l, i)), Mul(m[r][k], Column(x, i)[k]))
        {
          WeightsCancel(m[r][k], x[k][i], Weight(l, r), Weight(l, k), Weight(l, i));
        }
        DotScales(m[r], Column(x, i), n[r], Column(y, i), Mul(Weight(l, r), Weight(l, i)));
        assert Apply(m, Column(x, i))[r] == Column(g, i)[r] == s.covariance[i][r];
        MulLaws(Weight(l, r), Weight(l, i), 0.0);
        MulLaws(s.covariance[i][r], Mul(Weight(l, r), Weight(l, i)), 0.0);
      }
    }
  }

  /** A correction of a mean or of a covariance, scaled. */
  lemma DifferenceScales(a: real, b: real, w: real)
    ensures Mul(a - b, w) == Mul(a, w) - Mul(b, w) && Mul(w, b) == Mul(b, w)
  {
  }

  /** A gain meets the column of innovations. */
  lemma StepCancels(x: real, v: real, i: real, m: real)
    requires m > 0.0
    ensures Mul(Mul(x, Mul(i, 1.0 / m)), Mul(v, m)) == Mul(i, Mul(x, v))
  {
    var k := 1.0 / m;
    assert m * k == 1.0;
    assert (x * (i * k)) * (v * m) == (i * (x * v)) * (m * k);
  }

  /** A gain meets a row of the covariance. */
  lemma RowCancels(x: real, p: real, i: real, j: real, m: real)
    requires m > 0.0
    ensures Mul(Mul(x, Mul(i, 1.0 / m)), Mul(p, Mul(j, m))) == Mul(Mul(i, j), Mul(x, p))
  {
    var k := 1.0 / m;
    assert m * k == 1.0;
    assert (x * (i * k)) * (p * (j * m)) == ((i * j) * (x * p)) * (m * k);
  }

  /** The innovation: what was measured less what was expected. */
  function Surprise(s: State, z: Matrix): (v: Vector)
    requires s.Shaped() && IsMatrix(z, 4, 1)
    ensures |v| == 4 && forall m :: 0 <= m < 4 ==> v[m] == z[m][0] - s.mean[m][0]
  {
    Column(Minus(z, Block(s.mean, 4, 1), 4, 1), 0)
  }

  lemma SurpriseScales(l: real, s: State, z: Matrix, m: nat)
    requires s.Shaped() && IsMatrix(z, 4, 1) && m < 4
    ensures Surprise(Scaled(l, s), ScaledColumn(l, z, 4))[m] == Mul(Surprise(s, z)[m], Weight(l, m))
  {
    hide Mul, Surprise;
    DifferenceScales(z[m][0], s.mean[m][0], Weight(l, m));
  }

  lemma MeanScales(l: real, s: State, z: Matrix, x: Matrix, t: State, i: nat)
    requires l > 0.0 && s.Shaped() && IsMatrix(z, 4, 1) && IsMatrix(x, 4, 8) && t.Shaped() && i < 8
    requires t.mean[i][0] == s.mean[i][0] + Dot(Column(x, i), Surprise(s, z))
    ensures Scaled(l, t).mean[i][0] ==
      Scaled(l, s).mean[i][0] + Dot(Column(ScaledGain(l, x), i), Surprise(Scaled(l, s), ScaledColumn(l, z, 4)))
  {
    hide Mul, Dot, Surprise;
    var u, v := Column(x, i), Surprise(s, z);
    var u', v' := Column(ScaledGain(l, x), i), Surprise(Scaled(l, s), ScaledColumn(l, z, 4));
    forall m | 0 <= m < 4 ensures Mul(u'[m], v'[m]) == Mul(Weight(l, i), Mul(u[m], v[m])) {
      SurpriseScales(l, s, z, m);
      StepCancels(x[m][i], v[m], Weight(l, i), Weight(l, m));
    }
    DotScales(u, v, u', v', Weight(l, i));
    DistributesOver(s.mean[i][0], Dot(u, v), Weight(l, i));
    MulLaws(Weight(l, i), Dot(u, v), 0.0);
  }

  lemma CovarianceScales(l: real, s: State, z: Matrix, x: Matrix, t: State, i: nat, j: nat)
    requires l > 0.0 && s.Shaped() && IsMatrix(z, 4, 1) && Corrected(s, z, x, t) && i < 8 && j < 8
    ensures var q := Scaled(l, s);
      Scaled(l, t).covariance[i][j] == q.covariance[i][j] - Dot(Column(ScaledGain(l, x), i), q.covariance[j][..4])
  {
    hide Mul, Dot;
    var q, w := Scaled(l, s), Mul(Weight(l, i), Weight(l, j));
    var u, v := Column(x, i), s.covariance[j][..4];
    var u', v' := Column(ScaledGain(l, x), i), q.covariance[j][..4];
    forall m | 0 <= m < 4 ensures Mul(u'[m], v'[m]) == Mul(w, Mul(u[m], v[m])) {
      RowCancels(x[m][i], s.covariance[j][m], Weight(l, i), Weight(l, j), Weight(l, m));
    }
    DotScales(u, v, u', v', w);
    DifferenceScales(s.covariance[i][j], Dot(u, v), w);
  }

  lemma CorrectionScales(l: real, s: State, z: Matrix, x: Matrix, t: State)
    requires l > 0.0 && s.Shaped() && IsMatrix(z, 4, 1) && Corrected(s, z, x, t)
    ensures Corrected(Scaled(l, s), ScaledColumn(l, z, 4), ScaledGain(l, x), Scaled(l, t))
  {
    hide Mul, Dot, Scaled, ScaledGain, ScaledColumn;
    forall i | 0 <= i < 8
      ensures var q, y := Scaled(l, s), ScaledColumn(l, z, 4);
        Scaled(l, t).mean[i][0] ==
        q.mean[i][0] + Dot(Column(ScaledGain(l, x), i), Column(Minus(y, Block(q.mean, 4, 1), 4, 1), 0))
    {
      MeanScales(l, s, z, x, t, i);
    }
    forall i, j | 0 <= i < 8 && 0 <= j < 8
      ensures var q := Scaled(l, s);
        Scaled(l, t).covariance[i][j] == q.covariance[i][j] - Dot(Column(ScaledGain(l, x), i), q.covariance[j][..4])
    {
      CovarianceScales(l, s, z, x, t, i, j);
    }
  }

  /** A correction of the scaled track by the scaled measurement is the scaled correction. */
  lemma UpdateScales(l: real, s: State, z: Matrix, t: State)
    requires l > 0.0 && s.Shaped() && IsMatrix(z, 4, 1) && t.Shaped() && UpdatedBy(s, z, t)
    ensures UpdatedBy(Scaled(l, s), ScaledColumn(l, z, 4), Scaled(l, t))
  {
    hide Mul, PositiveDefinite, Innovation, Corrected, IsGain, Scaled, ScaledColumn, ScaledGain;
    DefiniteBothWays(l, s);
    if PositiveDefinite(Innovation(s)) {
      var x :| IsGain(s, x) && Corrected(s, z, x, t);
      GainShaped(s, x);
      GainScales(l, s, x);
      CorrectionScales(l, s, z, x, t);
    }
  }

  lemma GainShaped(s: State, x: Matrix)
    requires s.Shaped() && IsGain(s, x)
    ensures IsMatrix(x, 4, 8)
  {
  }

  // ---------- there is one correction ----------

  lemma {:induction false} SolutionIsUnique(m: Matrix, n: nat, u: Vector, v: Vector)
    requires IsMatrix(m, n, n) && PositiveDefinite(m) && |u| == |v| == n && Apply(m, u) == Apply(m, v)
    ensures u == v
  {
    hide Mul, Dot;
    var d: Vector := seq(n, i requires 0 <= i < n => u[i] + Mul(v[i], -1.0));
    forall r | 0 <= r < n ensures Apply(m, d)[r] == 0.0 {
      DotIsLinear(d, u, -1.0, v, m[r]);
      DotCommutes(d, m[r]);
      DotCommutes(u, m[r]);
      DotCommutes(v, m[r]);
      assert Apply(m, u)[r] == Apply(m, v)[r];
      MulMinusOne(Dot(v, m[r]));
    }
    DotVanishes(d, Apply(m, d));
    assert d == Zeros(n);
    forall i | 0 <= i < n ensures u[i] == v[i] {
      assert d[i] == 0.0;
      MulLaws(v[i], -1.0, 0.0);
      MulMinusOne(v[i]);
    }
  }

  lemma GainIsUnique(s: State, x: Matrix, y: Matrix)
    requires s.Shaped() && PositiveDefinite(Innovation(s)) && IsGain(s, x) && IsGain(s, y)
    ensures x == y
  {
    hide PositiveDefinite, Apply, Innovation;
    forall i | 0 <= i < 8 ensures Column(x, i) == Column(y, i) {
      SolutionIsUnique(Innovation(s), 4, Column(x, i), Column(y, i));
    }
    forall m | 0 <= m < 4 ensures x[m] == y[m] {
      forall i | 0 <= i < 8 ensures x[m][i] == y[m][i] {
        assert Column(x, i)[m] == Column(y, i)[m];
      }
    }
  }

  lemma CorrectionIsUnique(s: State, z: Matrix, x: Matrix, t: State, u: State)
    requires s.Shaped() && IsMatrix(z, 4, 1) && Corrected(s, z, x, t) && Corrected(s, z, x, u)
    ensures t == u
  {
    hide Dot;
    forall i | 0 <= i < 8 ensures t.mean[i] == u.mean[i] && t.covariance[i] == u.covariance[i] {
      assert t.mean[i][0] == u.mean[i][0];
      forall j | 0 <= j < 8 ensures t.covariance[i][j] == u.covariance[i][j] {
        assert t.covariance[i][j] == s.covariance[i][j] - Dot(Column(x, i), s.covariance[j][..4]);
      }
    }
    assert t.mean == u.mean && t.covariance == u.covariance;
  }

  /** A state and a measurement determine the correction. */
  lemma UpdateIsUnique(s: State, z: Matrix, t: State, u: State)
    requires s.Shaped() && IsMatrix(z, 4, 1) && UpdatedBy(s, z, t) && UpdatedBy(s, z, u)
    ensures t == u
  {
    hide PositiveDefinite, Innovation, Corrected, IsGain;
    if PositiveDefinite(Innovation(s)) {
      var x :| IsGain(s, x) && Corrected(s, z, x, t);
      var y :| IsGain(s, y) && Corrected(s, z, y, u);
      GainIsUnique(s, x, y);
      CorrectionIsUnique(s, z, x, t, u);
    }
  }

  function ScaledCall(l: real, c: Call): Call {
    match c
    case Predicting => Predicting
    case Correcting(box) => Correcting(ScaledBox(l, box))
  }

  /**
    The filter in other pixels: starting, predicting and correcting all commute with scaling, so over
    any sequence of calls the states scale, and so do the boxes shown.
   */
  lemma {:induction false} FilterScales(l: real, first: Box, calls: seq<Call>, ss: seq<State>, scaled: seq<Call>,
      tt: seq<State>, k: nat)
    requires l > 0.0 && k <= |calls| == |scaled|
    requires Path(first, calls, ss) && Path(ScaledBox(l, first), scaled, tt)
    requires forall i :: 0 <= i < |calls| ==> scaled[i] == ScaledCall(l, calls[i])
    ensures ss[k].Shaped() && tt[k] == Scaled(l, ss[k]) && ToBox(tt[k].mean) == ScaledBox(l, ToBox(ss[k].mean))
  {
    hide Scaled, ScaledColumn, UpdatedBy, Predicted, Initiate, ScaledBox, ToMeasurement, ToBox;
    if k == 0 {
      MeasurementScales(l, first);
      InitiateScales(l, ToMeasurement(first));
    } else {
      FilterScales(l, first, calls, ss, scaled, tt, k - 1);
      var s, t := ss[k - 1], ss[k];
      assert Goes(s, calls[k - 1], ss[k - 1 + 1]) && Goes(tt[k - 1], scaled[k - 1], tt[k - 1 + 1]);
      match calls[k - 1] {
        case Predicting => PredictionScales(l, s);
        case Correcting(box) =>
          var z := ToMeasurement(box);
          MeasurementScales(l, box);
          UpdateScales(l, s, z, t);
          UpdateIsUnique(Scaled(l, s), ScaledColumn(l, z, 4), tt[k], Scaled(l, t));
      }
    }
    ShownScales(l, ss[k]);
  }

  lemma ShownScales(l: real, s: State)
    requires s.Shaped()
    ensures Scaled(l, s).Shaped() && ToBox(Scaled(l, s).mean) == ScaledBox(l, ToBox(s.mean))
  {
    hide ScaledColumn, ToBox, ScaledBox;
    BoxScales(l, s.mean);
  }

  // ---------- how far a correction goes ----------

  /** No position is correlated with anything but itself and its own velocity. */
  ghost predicate Decoupled(s: State)
    requires s.Shaped()
  {
    forall i, m :: 0 <= i < 8 && 0 <= m < 4 && i != m && i != m + 4 ==> s.covariance[i][m] == 0.0
  }

  /** The variance of an innovation. */
  function Spread(s: State, m: nat): real
    requires s.Shaped() && m < 4
  {
    s.covariance[m][m] + MeasurementNoise(s.Height())[m]
  }

  ghost predicate Spreads(s: State)
    requires s.Shaped()
  {
    forall m :: 0 <= m < 4 ==> Spread(s, m) > 0.0
  }

  /** The share of an innovation of variance d that goes to an entry whose covariance with it is p. */
  function Shared(p: real, d: real, innovation: real): real
    requires d > 0.0
  {
    p / d * innovation
  }

  lemma InnovationEntry(s: State, m: nat, k: nat)
    requires s.Shaped() && Decoupled(s) && m < 4 && k < 4
    ensures Innovation(s)[m][k] == if m == k then Spread(s, m) else 0.0
  {
    hide MeasurementNoise;
  }

  lemma DecoupledGain(s: State, x: Matrix, i: nat, m: nat)
    requires s.Shaped() && Decoupled(s) && IsGain(s, x) && i < 8 && m < 4
    ensures Mul(Spread(s, m), x[m][i]) == s.covariance[i][m]
  {
    hide Dot, Mul, Spread, Innovation;
    var n := Innovation(s);
    var g := Transposed(Block(s.covariance, 8, 4), 8, 4);
    assert Apply(n, Column(x, i)) == Column(g, i);
    assert Apply(n, Column(x, i))[m] == Column(g, i)[m] == s.covariance[i][m];
    forall k | 0 <= k < 4 ensures n[m][k] == if m == k then Spread(s, m) else 0.0 {
      InnovationEntry(s, m, k);
    }
    OneTerm(n[m], Column(x, i), m);
  }

  /** A dot product with one term. */
  lemma OneTerm(u: Vector, v: Vector, m: nat)
    requires |u| == |v| && m < |u| && forall k :: 0 <= k < |u| && k != m ==> u[k] == 0.0 || v[k] == 0.0
    ensures Dot(u, v) == Mul(u[m], v[m])
  {
    hide Dot, Mul;
    DotSplit(u, v, m);
    DotSplit(u[m..], v[m..], 1);
    DotVanishes(u[..m], v[..m]);
    DotVanishes(u[m..][1..], v[m..][1..]);
    DotLast(u[m..][..1], v[m..][..1]);
    DotVanishes(u[m..][..1][..0], v[m..][..1][..0]);
  }

  lemma SharedAlone(d: real, x: real, p: real, v: real)
    requires d > 0.0 && Mul(d, x) == p
    ensures Mul(x, v) == Shared(p, d, v) && (p == 0.0 ==> x == 0.0)
  {
    assert x == p / d;
  }

  /** Each entry takes its share of its own innovation, and of no other. */
  lemma DecoupledStep(s: State, z: Matrix, x: Matrix, t: State, i: nat, m: nat)
    requires s.Shaped() && IsMatrix(z, 4, 1) && Decoupled(s) && Spreads(s) && IsGain(s, x) && Corrected(s, z, x, t)
    requires i < 8 && m < 4 && (i == m || i == m + 4)
    ensures t.mean[i][0] == s.mean[i][0] + Shared(s.covariance[i][m], Spread(s, m), z[m][0] - s.mean[m][0])
  {
    hide Dot, Mul, Shared, IsGain, Spread;
    var v := Column(Minus(z, Block(s.mean, 4, 1), 4, 1), 0);
    GainShaped(s, x);
    forall k | 0 <= k < 4 && k != m ensures Column(x, i)[k] == 0.0 {
      DecoupledGain(s, x, i, k);
      SharedAlone(Spread(s, k), x[k][i], s.covariance[i][k], 0.0);
    }
    DecoupledGain(s, x, i, m);
    SharedAlone(Spread(s, m), x[m][i], s.covariance[i][m], v[m]);
    OneTerm(Column(x, i), v, m);
  }

  /** A decoupled covariance has a definite innovation. */
  lemma DecoupledDefinite(s: State)
    requires s.Shaped() && Decoupled(s) && Spreads(s)
    ensures PositiveDefinite(Innovation(s))
  {
    hide PositiveDefinite, Spread, Innovation;
    var d: Vector := seq(4, m requires 0 <= m < 4 => Spread(s, m));
    forall i | 0 <= i < 4 ensures Innovation(s)[i] == Diagonal(d)[i] {
      forall j | 0 <= j < 4 ensures Innovation(s)[i][j] == Diagonal(d)[i][j] {
        InnovationEntry(s, i, j);
      }
    }
    assert Innovation(s) == Diagonal(d);
    DiagonalForm(d);
  }

  lemma DecoupledUpdate(s: State, z: Matrix, t: State)
    requires s.Shaped() && IsMatrix(z, 4, 1) && Decoupled(s) && Spreads(s) && UpdatedBy(s, z, t)
    ensures t.Shaped()
    ensures forall i, m :: 0 <= i < 8 && 0 <= m < 4 && (i == m || i == m + 4) ==>
      t.mean[i][0] == s.mean[i][0] + Shared(s.covariance[i][m], Spread(s, m), z[m][0] - s.mean[m][0])
  {
    hide PositiveDefinite, IsGain, Innovation, Spread, Shared, Decoupled, Corrected;
    DecoupledDefinite(s);
    var x :| IsGain(s, x) && Corrected(s, z, x, t);
    CorrectedShaped(s, z, x, t);
    forall i, m | 0 <= i < 8 && 0 <= m < 4 && (i == m || i == m + 4)
      ensures t.mean[i][0] == s.mean[i][0] + Shared(s.covariance[i][m], Spread(s, m), z[m][0] - s.mean[m][0])
    {
      DecoupledStep(s, z, x, t, i, m);
    }
  }

  lemma CorrectedShaped(s: State, z: Matrix, x: Matrix, t: State)
    requires s.Shaped() && IsMatrix(z, 4, 1) && Corrected(s, z, x, t)
    ensures t.Shaped()
  {
  }

  /** A share does not depend on the unit of the variances. */
  lemma ShareInUnits(c: real, d: real, q: real, v: real)
    requires d > 0.0 && q > 0.0
    ensures Mul(d, q) > 0.0 && Shared(Mul(c, q), Mul(d, q), v) == Mul(c / d, v)
  {
    var k := c / d;
    assert d * q > 0.0;
    assert c == k * d;
    assert c * q == k * (d * q);
    Divided(c * q, d * q, k);
  }

  lemma Divided(x: real, y: real, k: real)
    requires y > 0.0 && x == k * y
    ensures x / y == k
  {
  }

  /** All variances of a box of this height, in units of its square; those of the aspect ratio have no unit. */
  lemma Variances(h: real, i: nat)
    requires i < 4
    ensures i != 2 ==>
      && InitialVariances(h)[i] == Mul(1.0 / 100.0, Mul(h, h))
      && InitialVariances(h)[i + 4] == Mul(1.0 / 256.0, Mul(h, h))
      && ProcessNoise(h)[i] == Mul(1.0 / 400.0, Mul(h, h)) && MeasurementNoise(h)[i] == Mul(1.0 / 400.0, Mul(h, h))
    ensures i == 2 ==>
      && InitialVariances(h)[2] == 0.0001 == ProcessNoise(h)[2] && InitialVariances(h)[6] == 0.0000000001
      && MeasurementNoise(h)[2] == 0.01
  {
    SquareOf(2.0 * (STD_WEIGHT_POSITION * h), 1.0 / 10.0, h);
    SquareOf(10.0 * (STD_WEIGHT_VELOCITY * h), 1.0 / 16.0, h);
    SquareOf(STD_WEIGHT_POSITION * h, 1.0 / 20.0, h);
    assert Square(0.01) == 0.0001 && Square(0.1) == 0.01 && Square(0.00001) == 0.0000000001;
    hide Square, Mul;
  }

  lemma SquareOf(x: real, w: real, h: real)
    requires x == w * h
    ensures Square(x) == Mul(w * w, Mul(h, h))
  {
  }

  lemma FreshCovariance(first: Matrix, i: nat, m: nat)
    requires IsMatrix(first, 4, 1) && i < 8 && m < 4
    ensures Initiate(first).Height() == first[3][0]
    ensures Initiate(first).covariance[i][m] == if i == m then InitialVariances(first[3][0])[m] else 0.0
  {
    hide InitialVariances;
  }

  /**
    A fresh track corrected at once: centre and height move four fifths of the way to the new box,
    the aspect ratio one part in 101, and there is still no velocity.
   */
  lemma FreshTrackMoves(first: Matrix, z: Matrix, t: State)
    requires IsMatrix(first, 4, 1) && IsMatrix(z, 4, 1) && first[3][0] != 0.0 && UpdatedBy(Initiate(first), z, t)
    ensures t.Shaped()
    ensures forall i :: 0 <= i < 4 ==>
      t.mean[i][0] == first[i][0] + Mul(if i == 2 then 1.0 / 101.0 else 4.0 / 5.0, z[i][0] - first[i][0])
    ensures forall i :: 4 <= i < 8 ==> t.mean[i][0] == 0.0
  {
    hide UpdatedBy, InitialVariances, MeasurementNoise, Shared, Mul, Initiate;
    var s, h := Initiate(first), first[3][0];
    var q := Mul(h, h);
    SquareLaw(h);
    forall i, m | 0 <= i < 8 && 0 <= m < 4
      ensures s.Height() == h
      ensures s.covariance[i][m] ==
        if i == m then Mul(if m == 2 then 0.0001 else 1.0 / 100.0, if m == 2 then 1.0 else q) else 0.0
    {
      FreshCovariance(first, i, m);
      Variances(h, m);
      TimesUnit(0.0001);
    }
    forall m | 0 <= m < 4
      ensures Spread(s, m) == Mul(if m == 2 then 0.0101 else 1.0 / 80.0, if m == 2 then 1.0 else q)
    {
      FreshCovariance(first, m, m);
      Variances(h, m);
      DistributesOver(1.0 / 100.0, 1.0 / 400.0, q);
      TimesUnit(0.0101);
    }
    forall m | 0 <= m < 4 ensures Spread(s, m) > 0.0 {
      ShareInUnits(0.0, if m == 2 then 0.0101 else 1.0 / 80.0, if m == 2 then 1.0 else q, 0.0);
    }
    DecoupledUpdate(s, z, t);
    forall i | 0 <= i < 4
      ensures t.mean[i][0] == first[i][0] + Mul(if i == 2 then 1.0 / 101.0 else 4.0 / 5.0, z[i][0] - first[i][0])
    {
      var v := z[i][0] - first[i][0];
      if i == 2 {
        TimesUnit(0.0001);
        ShareInUnits(0.0001, 0.0101, 1.0, v);
      } else {
        ShareInUnits(1.0 / 100.0, 1.0 / 80.0, q, v);
      }
    }
    forall i | 4 <= i < 8 ensures t.mean[i][0] == 0.0 {
      assert s.covariance[i][i - 4] == 0.0;
      NothingShared(Spread(s, i - 4), z[i - 4][0] - first[i - 4][0]);
    }
  }

  lemma TimesUnit(x: real)
    ensures Mul(x, 1.0) == x
  {
  }

  lemma NothingShared(d: real, v: real)
    requires d > 0.0
    ensures Shared(0.0, d, v) == 0.0
  {
  }

  /** The covariance of a fresh track after one prediction. */
  lemma PredictedVariances(first: Matrix, i: nat, m: nat)
    requires IsMatrix(first, 4, 1) && i < 8 && m < 4
    ensures Predicted(Initiate(first)).Shaped()
    ensures Predicted(Initiate(first)).Height() == first[3][0]
    ensures var d, n := InitialVariances(first[3][0]), ProcessNoise(first[3][0]);
      Predicted(Initiate(first)).covariance[i][m] ==
      if i == m then d[m] + d[m + 4] + n[m] else if i == m + 4 then d[m + 4] else 0.0
  {
    hide InitialVariances, ProcessNoise, Predicted;
    var s := Initiate(first);
    PredictedEntry(s, i, m);
    PredictedMean(s, 3);
  }

  /** One prediction makes the velocities a hundredth less certain, and that of the aspect ratio twice. */
  lemma VelocitiesGrowUncertain(first: Matrix, i: nat)
    requires IsMatrix(first, 4, 1) && 4 <= i < 8
    ensures Predicted(Initiate(first)).Shaped()
    ensures Predicted(Initiate(first)).covariance[i][i] ==
      Initiate(first).covariance[i][i] * if i == 6 then 2.0 else 1.01
  {
    hide Predicted;
    PredictedEntry(Initiate(first), i, i);
    var h := first[3][0];
    SquareOf(10.0 * (STD_WEIGHT_VELOCITY * h), 1.0 / 16.0, h);
    SquareOf(STD_WEIGHT_VELOCITY * h, 1.0 / 160.0, h);
  }

  /** The same in units of the squared height. */
  lemma PredictedInUnits(first: Matrix, i: nat, m: nat)
    requires IsMatrix(first, 4, 1) && i < 8 && m < 4
    ensures Predicted(Initiate(first)).Shaped()
    ensures Predicted(Initiate(first)).Height() == first[3][0]
    ensures var q := Mul(first[3][0], first[3][0]);
      Predicted(Initiate(first)).covariance[i][m] ==
      if i == m then Mul(if m == 2 then 0.0002000001 else 105.0 / 6400.0, if m == 2 then 1.0 else q)
      else if i == m + 4 then Mul(if m == 2 then 0.0000000001 else 25.0 / 6400.0, if m == 2 then 1.0 else q)
      else 0.0
  {
    hide InitialVariances, MeasurementNoise, ProcessNoise, Mul, Predicted, Initiate;
    PredictedVariances(first, i, m);
    Variances(first[3][0], m);
    SumInUnits(1.0 / 100.0, 1.0 / 256.0, 1.0 / 400.0, Mul(first[3][0], first[3][0]));
    TimesUnit(0.0002000001);
    TimesUnit(0.0000000001);
  }

  /** How an innovation is shared after one prediction: 105 parts of 121 to the position, 25 to its velocity. */
  function FirstShare(i: nat): real {
    if i == 2 then 2000001.0 / 102000001.0
    else if i == 6 then 1.0 / 102000001.0
    else if i < 4 then 105.0 / 121.0
    else 25.0 / 121.0
  }

  lemma FreshMean(first: Matrix, i: nat)
    requires IsMatrix(first, 4, 1) && i < 4
    ensures Predicted(Initiate(first)).Shaped()
    ensures Predicted(Initiate(first)).mean[i][0] == first[i][0] && Predicted(Initiate(first)).mean[i + 4][0] == 0.0
  {
    hide InitialVariances, Predicted;
    PredictedMean(Initiate(first), i);
    PredictedMean(Initiate(first), i + 4);
  }

  /**
    A fresh track predicted and corrected once: centre and height move 105 parts in 121 of the way to
    the new box, and take 25 parts in 121 of that way as their velocity.
   */
  lemma PredictedTrackMoves(first: Matrix, z: Matrix, t: State)
    requires IsMatrix(first, 4, 1) && IsMatrix(z, 4, 1) && first[3][0] != 0.0
    requires Predicted(Initiate(first)).Shaped() && UpdatedBy(Predicted(Initiate(first)), z, t)
    ensures t.Shaped()
    ensures forall i :: 0 <= i < 4 ==> t.mean[i][0] == first[i][0] + Mul(FirstShare(i), z[i][0] - first[i][0])
    ensures forall i :: 0 <= i < 4 ==> t.mean[i + 4][0] == Mul(FirstShare(i + 4), z[i][0] - first[i][0])
  {
    hide UpdatedBy, InitialVariances, MeasurementNoise, ProcessNoise, Shared, Mul, Predicted, Initiate;
    var s, h := Predicted(Initiate(first)), first[3][0];
    var q := Mul(h, h);
    SquareLaw(h);
    forall i, m | 0 <= i < 8 && 0 <= m < 4
      ensures s.Height() == h
      ensures s.covariance[i][m] ==
        if i == m then Mul(if m == 2 then 0.0002000001 else 105.0 / 6400.0, if m == 2 then 1.0 else q)
        else if i == m + 4 then Mul(if m == 2 then 0.0000000001 else 25.0 / 6400.0, if m == 2 then 1.0 else q)
        else 0.0
    {
      PredictedInUnits(first, i, m);
    }
    forall m | 0 <= m < 4
      ensures Spread(s, m) == Mul(if m == 2 then 0.0102000001 else 121.0 / 6400.0, if m == 2 then 1.0 else q)
    {
      PredictedInUnits(first, m, m);
      Variances(h, m);
      DistributesOver(105.0 / 6400.0, 1.0 / 400.0, q);
      TimesUnit(0.0002000001);
      TimesUnit(0.0102000001);
    }
    forall m | 0 <= m < 4 ensures Spread(s, m) > 0.0 {
      ShareInUnits(0.0, if m == 2 then 0.0102000001 else 121.0 / 6400.0, if m == 2 then 1.0 else q, 0.0);
    }
    DecoupledUpdate(s, z, t);
    forall i | 0 <= i < 4
      ensures t.mean[i][0] == first[i][0] + Mul(FirstShare(i), z[i][0] - first[i][0])
      ensures t.mean[i + 4][0] == Mul(FirstShare(i + 4), z[i][0] - first[i][0])
    {
      var v := z[i][0] - first[i][0];
      FreshMean(first, i);
      if i == 2 {
        ShareInUnits(0.0002000001, 0.0102000001, 1.0, v);
        ShareInUnits(0.0000000001, 0.0102000001, 1.0, v);
      } else {
        ShareInUnits(105.0 / 6400.0, 121.0 / 6400.0, q, v);
        ShareInUnits(25.0 / 6400.0, 121.0 / 6400.0, q, v);
      }
    }
  }

  lemma SumInUnits(a: real, b: real, c: real, q: real)
    ensures Mul(a, q) + Mul(b, q) + Mul(c, q) == Mul(a + b + c, q)
  {
  }
}
