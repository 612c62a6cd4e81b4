/**
  The constant-velocity Kalman filter over boxes: centre x, centre y, aspect ratio and height,
  each with its velocity. The covariance stays symmetric and positive semidefinite over every
  sequence of calls, and positive definite as long as measured boxes have a height.
 */
module BoxKalmanFilter {
  import opened SmallMatrix
  import opened Detections

  const STD_WEIGHT_POSITION := 1.0 / 20.0
  const STD_WEIGHT_VELOCITY := 1.0 / 160.0

  /** `mean` is a column of eight, `covariance` eight by eight. */
  datatype State = State(mean: Matrix, covariance: Matrix) {
    ghost predicate Shaped() {
      IsMatrix(mean, 8, 1) && IsMatrix(covariance, 8, 8)
    }

    /** What every call keeps: a covariance is symmetric and positive semidefinite. */
    ghost predicate Valid() {
      Shaped() && Symmetric(covariance) && PositiveSemidefinite(covariance)
    }

    /** A covariance that rules nothing out. */
    ghost predicate Definite() {
      Valid() && PositiveDefinite(covariance)
    }

    function Height(): real
      requires Shaped()
    {
      mean[3][0]
    }
  }

  function Square(v: real): real {
    Mul(v, v)
  }

  /** Position moves by velocity in one time step. */
  function MotionModel(): (f: Matrix)
    ensures IsMatrix(f, 8, 8)
    ensures forall r, c :: 0 <= r < 8 && 0 <= c < 8 ==> f[r][c] == if c == r || c == r + 4 then 1.0 else 0.0
  {
    seq(8, r requires 0 <= r < 8 => seq(8, c requires 0 <= c < 8 => if c == r || c == r + 4 then 1.0 else 0.0))
  }

  function InitialVariances(h: real): (d: Vector)
    ensures |d| == 8
  {
    var pos, vel := STD_WEIGHT_POSITION * h, STD_WEIGHT_VELOCITY * h;
    [Square(2.0 * pos), Square(2.0 * pos), Square(0.01), Square(2.0 * pos),
     Square(10.0 * vel), Square(10.0 * vel), Square(0.00001), Square(10.0 * vel)]
  }

  function ProcessNoise(h: real): (d: Vector)
    ensures |d| == 8
  {
    var pos, vel := STD_WEIGHT_POSITION * h, STD_WEIGHT_VELOCITY * h;
    [Square(pos), Square(pos), Square(0.01), Square(pos), Square(vel), Square(vel), Square(0.00001), Square(vel)]
  }

  function MeasurementNoise(h: real): (d: Vector)
    ensures |d| == 4
  {
    var pos := STD_WEIGHT_POSITION * h;
    [Square(pos), Square(pos), Square(0.1), Square(pos)]
  }

  lemma NoiseLaws(h: real)
    ensures forall i :: 0 <= i < 8 ==> InitialVariances(h)[i] >= 0.0 && (h != 0.0 ==> InitialVariances(h)[i] > 0.0)
    ensures forall i :: 0 <= i < 8 ==> ProcessNoise(h)[i] >= 0.0
    ensures forall i :: 0 <= i < 4 ==> MeasurementNoise(h)[i] >= 0.0 && (h != 0.0 ==> MeasurementNoise(h)[i] > 0.0)
  {
    hide Mul;
    var pos, vel := STD_WEIGHT_POSITION * h, STD_WEIGHT_VELOCITY * h;
    assert h != 0.0 ==> 2.0 * pos != 0.0 && 10.0 * vel != 0.0 && pos != 0.0;
    SquareLaw(2.0 * pos);
    SquareLaw(10.0 * vel);
    SquareLaw(pos);
    SquareLaw(vel);
    SquareLaw(0.01);
    SquareLaw(0.00001);
    SquareLaw(0.1);
  }

  /** A first estimate from one measurement, with zero velocity. */
  function Initiate(z: Matrix): (s: State)
    requires IsMatrix(z, 4, 1)
    ensures s.Shaped()
    ensures forall i :: 0 <= i < 8 ==> s.mean[i][0] == if i < 4 then z[i][0] else 0.0
  {
    State(seq(8, i requires 0 <= i < 8 => if i < 4 then [z[i][0]] else [0.0]), Diagonal(InitialVariances(z[3][0])))
  }

  lemma InitiateIsValid(z: Matrix)
    requires IsMatrix(z, 4, 1)
    ensures Initiate(z).Valid()
    ensures z[3][0] != 0.0 ==> Initiate(z).Definite()
  {
    hide PositiveDefinite, PositiveSemidefinite, InitialVariances, Diagonal, Mul;
    NoiseLaws(z[3][0]);
    DiagonalForm(InitialVariances(z[3][0]));
  }

  // ---------- prediction ----------

  /** The motion model transposed annihilates nothing. */
  lemma MotionIsInjective(z: Vector)
    requires |z| == 8 && Apply(Transposed(MotionModel(), 8, 8), z) == Zeros(8)
    ensures z == Zeros(8)
  {
    hide Dot, Mul;
    var t := Transposed(MotionModel(), 8, 8);
    forall c | 0 <= c < 4 ensures z[c] == 0.0 {
      OneEntry(z, t[c], c);
      DotCommutes(z, t[c]);
      assert Apply(t, z)[c] == z[c];
    }
    forall c | 4 <= c < 8 ensures z[c] == 0.0 {
      OneEntryLeft(z, t[c], c);
      DotCommutes(z, t[c]);
      assert Apply(t, z)[c] == z[c];
    }
  }

  /** A dot product with a unit vector. */
  lemma OneEntry(z: Vector, e: Vector, c: nat)
    requires |z| == |e| && c < |z| && e[c] == 1.0 && forall i :: 0 <= i < |e| && i != c ==> e[i] == 0.0
    ensures Dot(z, e) == z[c]
  {
    hide Dot, Mul;
    DotFrom(z, e, c);
    DotVanishes(z[c + 1..], e[c + 1..]);
    MulByOne(z[c]);
  }

  /** The same where all other entries meet zeros. */
  lemma OneEntryLeft(z: Vector, e: Vector, c: nat)
    requires |z| == |e| && c < |z| && e[c] == 1.0 && forall i :: 0 <= i < |e| && i != c ==> e[i] == 0.0 || z[i] == 0.0
    ensures Dot(z, e) == z[c]
  {
    hide Dot, Mul;
    DotSplit(z, e, c);
    DotVanishes(z[..c], e[..c]);
    DotSplit(z[c..], e[c..], 1);
    DotVanishes(z[c..][1..], e[c..][1..]);
    DotLast(z[c..][..1], e[c..][..1]);
    DotVanishes(z[c..][..1][..0], e[c..][..1][..0]);
    MulByOne(z[c]);
  }

  lemma PlusForm(a: Matrix, b: Matrix, n: nat, z: Vector)
    requires IsMatrix(a, n, n) && IsMatrix(b, n, n) && |z| == n
    ensures Form(Plus(a, b, n, n), z) == Form(a, z) + Form(b, z)
  {
    hide Form, Mul;
    forall r, c | 0 <= r < n && 0 <= c < n ensures Plus(a, b, n, n)[r][c] == a[r][c] + Mul(b[r][c], 1.0) {
      MulByOne(b[r][c]);
    }
    SumOfForms(Plus(a, b, n, n), a, 1.0, b, n, z);
    MulByOne(Form(b, z));
    MulLaws(1.0, Form(b, z), 0.0);
  }

  lemma PlusSymmetric(a: Matrix, b: Matrix, n: nat)
    requires Symmetric(a) && Symmetric(b) && |a| == |b| == n
    ensures Symmetric(Plus(a, b, n, n))
  {
    var m := Plus(a, b, n, n);
    forall r, c | 0 <= r < n && 0 <= c < n ensures m[r][c] == m[c][r] {
      assert m[r][c] == a[r][c] + b[r][c] && m[c][r] == a[c][r] + b[c][r];
    }
  }

  /** The state one time step on: x := F x, P := F P F' + Q. */
  ghost function Predicted(s: State): State
    requires s.Shaped()
  {
    var f := MotionModel();
    var moved := Product(Product(f, s.covariance, 8, 8, 8), Transposed(f, 8, 8), 8, 8, 8);
    State(Product(f, s.mean, 8, 8, 1), Plus(moved, Diagonal(ProcessNoise(s.Height())), 8, 8))
  }

  /** A prediction moves the box by its velocity, and its covariance stays one. */
  method Predict(s: State) returns (t: State)
    requires s.Valid()
    ensures t.Valid()
    ensures s.Definite() ==> t.Definite()
    ensures forall i :: 0 <= i < 8 ==> t.mean[i][0] == s.mean[i][0] + if i < 4 then s.mean[i + 4][0] else 0.0
    ensures t == Predicted(s)
  {
    hide Dot, Mul, Apply, PositiveSemidefinite, PositiveDefinite, SandwichedAt, Plus, Diagonal,
      Symmetric, ProcessNoise, Product;
    var f := MotionModel();
    var noise := Diagonal(ProcessNoise(s.Height()));
    var mean := Times(f, s.mean, 8, 8, 1);
    var fp := Times(f, s.covariance, 8, 8, 8);
    var m := Times(fp, Transposed(f, 8, 8), 8, 8, 8);
    t := State(mean, Plus(m, noise, 8, 8));
    ProductIsUnique(mean, f, s.mean, 8, 8, 1);
    ProductIsUnique(fp, f, s.covariance, 8, 8, 8);
    ProductIsUnique(m, fp, Transposed(f, 8, 8), 8, 8, 8);
    NoiseLaws(s.Height());
    DiagonalForm(ProcessNoise(s.Height()));
    Sandwich(f, s.covariance, fp, m, 8);
    PlusSymmetric(m, noise, 8);
    MotionKeepsDefinite(s.covariance, m, noise);
    forall i | 0 <= i < 8 ensures mean[i][0] == s.mean[i][0] + if i < 4 then s.mean[i + 4][0] else 0.0 {
      MotionRow(f[i], Column(s.mean, 0), i);
    }
  }

  lemma MotionKeepsDefinite(p: Matrix, m: Matrix, noise: Matrix)
    requires IsMatrix(p, 8, 8) && IsMatrix(m, 8, 8) && IsMatrix(noise, 8, 8)
    requires PositiveSemidefinite(noise) && PositiveSemidefinite(p)
    requires forall z: Vector :: |z| == 8 ==> SandwichedAt(MotionModel(), p, m, 8, z)
    ensures PositiveSemidefinite(Plus(m, noise, 8, 8))
    ensures PositiveDefinite(p) ==> PositiveDefinite(Plus(m, noise, 8, 8))
  {
    hide Form, Apply, Plus, MotionModel;
    forall z: Vector | |z| == 8
      ensures Form(Plus(m, noise, 8, 8), z) >= 0.0
      ensures PositiveDefinite(p) && z != Zeros(8) ==> Form(Plus(m, noise, 8, 8), z) > 0.0
    {
      PlusForm(m, noise, 8, z);
      assert SandwichedAt(MotionModel(), p, m, 8, z);
      var q := Apply(Transposed(MotionModel(), 8, 8), z);
      if q == Zeros(8) {
        MotionIsInjective(z);
      }
    }
  }

  /** Row i of the motion model adds the velocity to a position. */
  lemma MotionRow(row: Vector, x: Vector, i: nat)
    requires |row| == |x| == 8 && i < 8
    requires forall c :: 0 <= c < 8 ==> row[c] == if c == i || c == i + 4 then 1.0 else 0.0
    ensures Dot(row, x) == x[i] + if i < 4 then x[i + 4] else 0.0
  {
    hide Dot, Mul;
    DotCommutes(row, x);
    DotFrom(x, row, i);
    MulByOne(x[i]);
    if i < 4 {
      OneEntry(x[i + 1..], row[i + 1..], 3);
    } else {
      DotVanishes(x[i + 1..], row[i + 1..]);
    }
  }

  // ---------- correction by a measurement ----------

  /**
    What a correction works with: the covariance p, its first k columns g, the innovation
    covariance s = (first k rows of g) + noise, and the transposed gain x with s x == g'.
   */
  ghost predicate Gain(p: Matrix, noise: Matrix, s: Matrix, g: Matrix, x: Matrix, n: nat, k: nat) {
    && k <= n && IsMatrix(p, n, n) && Symmetric(p) && IsMatrix(noise, k, k) && Symmetric(noise)
    && g == Block(p, n, k) && s == Plus(Block(p, k, k), noise, k, k)
    && IsMatrix(x, k, n) && Solves(s, x, Transposed(g, n, k), k, n, n)
  }

  lemma InnovationSymmetric(p: Matrix, noise: Matrix, n: nat, k: nat)
    requires k <= n && IsMatrix(p, n, n) && Symmetric(p) && IsMatrix(noise, k, k) && Symmetric(noise)
    ensures Symmetric(Plus(Block(p, k, k), noise, k, k))
  {
    var b := Block(p, k, k);
    forall r, c | 0 <= r < k && 0 <= c < k ensures b[r][c] == b[c][r] {
      assert b[r][c] == p[r][c] && b[c][r] == p[c][r];
    }
    PlusSymmetric(b, noise, k);
  }

  /** s x_c == g_c, column by column. */
  lemma GainColumn(p: Matrix, noise: Matrix, s: Matrix, g: Matrix, x: Matrix, n: nat, k: nat, c: nat)
    requires Gain(p, noise, s, g, x, n, k) && c < n
    ensures IsMatrix(s, k, k) && IsMatrix(g, n, k) && Apply(s, Column(x, c)) == g[c]
  {
    hide Apply;
    assert Column(Transposed(g, n, k), c) == g[c];
  }

  lemma CorrectionEntry(p: Matrix, noise: Matrix, s: Matrix, g: Matrix, x: Matrix, kg: Matrix, n: nat,
      k: nat, i: nat, j: nat)
    requires Gain(p, noise, s, g, x, n, k) && i < n && j < n
    requires IsProduct(kg, Transposed(x, k, n), Transposed(g, n, k), n, k, n)
    ensures IsMatrix(s, k, k) && IsMatrix(g, n, k)
    ensures kg[i][j] == Dot(Column(x, i), g[j]) == Dot(Column(x, i), Apply(s, Column(x, j)))
  {
    hide Dot, Apply, Symmetric, Plus, Solves;
    GainColumn(p, noise, s, g, x, n, k, j);
    assert Transposed(x, k, n)[i] == Column(x, i);
    assert Column(Transposed(g, n, k), j) == g[j];
  }

  lemma CorrectionSymmetric(p: Matrix, noise: Matrix, s: Matrix, g: Matrix, x: Matrix, kg: Matrix, n: nat, k: nat)
    requires Gain(p, noise, s, g, x, n, k)
    requires IsProduct(kg, Transposed(x, k, n), Transposed(g, n, k), n, k, n)
    ensures Symmetric(kg)
  {
    hide Dot, Apply, Plus, Solves, Column;
    InnovationSymmetric(p, noise, n, k);
    forall i, j | 0 <= i < n && 0 <= j < n ensures kg[i][j] == kg[j][i] {
      CorrectionEntry(p, noise, s, g, x, kg, n, k, i, j);
      CorrectionEntry(p, noise, s, g, x, kg, n, k, j, i);
      FormSymmetric(s, k, Column(x, i), Column(x, j));
      DotCommutes(Apply(s, Column(x, i)), Column(x, j));
    }
  }

  /** s (x z) == g' z. */
  lemma GainSolves(p: Matrix, noise: Matrix, s: Matrix, g: Matrix, x: Matrix, n: nat, k: nat, z: Vector)
    requires Gain(p, noise, s, g, x, n, k) && |z| == n
    ensures IsMatrix(s, k, k) && IsMatrix(g, n, k)
    ensures Apply(s, Apply(x, z)) == Apply(Transposed(g, n, k), z)
  {
    hide Dot, Symmetric, Plus, Solves;
    var h := Transposed(g, n, k);
    forall m | 0 <= m < k ensures Dot(s[m], Apply(x, z)) == Dot(h[m], z) {
      Adjoint(x, k, n, s[m], z);
      forall c | 0 <= c < n ensures Apply(Transposed(x, k, n), s[m])[c] == h[m][c] {
        GainColumn(p, noise, s, g, x, n, k, c);
        DotCommutes(s[m], Column(x, c));
        assert Transposed(x, k, n)[c] == Column(x, c);
        assert Apply(s, Column(x, c))[m] == g[c][m];
      }
      assert Apply(Transposed(x, k, n), s[m]) == h[m];
    }
  }

  /** The form of the correction at z is (x z) . (g' z). */
  lemma CorrectionForm(p: Matrix, noise: Matrix, s: Matrix, g: Matrix, x: Matrix, kg: Matrix, n: nat,
      k: nat, z: Vector)
    requires Gain(p, noise, s, g, x, n, k) && |z| == n
    requires IsProduct(kg, Transposed(x, k, n), Transposed(g, n, k), n, k, n)
    ensures IsMatrix(g, n, k)
    ensures Form(kg, z) == Dot(Apply(x, z), Apply(Transposed(g, n, k), z))
  {
    hide Dot, Symmetric, Plus, Solves;
    var t, h := Transposed(x, k, n), Apply(Transposed(g, n, k), z);
    forall i | 0 <= i < n ensures Dot(kg[i], z) == Dot(t[i], h) {
      forall j | 0 <= j < n ensures kg[i][j] == Dot(g[j], t[i]) {
        CorrectionEntry(p, noise, s, g, x, kg, n, k, i, j);
        DotCommutes(t[i], g[j]);
      }
      assert kg[i] == Apply(g, t[i]);
      DotCommutes(kg[i], z);
      Adjoint(g, n, k, z, t[i]);
      DotCommutes(h, t[i]);
    }
    assert Apply(kg, z) == Apply(t, h);
    Adjoint(t, n, k, z, h);
    assert Transposed(t, n, k) == x by { TransposedTwice(x, k, n); }
  }

  lemma TransposedTwice(x: Matrix, rows: nat, cols: nat)
    requires IsMatrix(x, rows, cols)
    ensures Transposed(Transposed(x, rows, cols), cols, rows) == x
  {
    var t := Transposed(Transposed(x, rows, cols), cols, rows);
    forall r | 0 <= r < rows ensures t[r] == x[r] {
      assert forall c :: 0 <= c < cols ==> t[r][c] == Transposed(x, rows, cols)[c][r] == x[r][c];
    }
  }

  /** w, followed by zeros. */
  ghost function Padded(w: Vector, n: nat): (v: Vector)
    requires |w| <= n
    ensures |v| == n && forall i :: 0 <= i < n ==> v[i] == if i < |w| then w[i] else 0.0
  {
    w + Zeros(n - |w|)
  }

  lemma PaddedDot(w: Vector, n: nat, y: Vector)
    requires |w| <= n == |y|
    ensures Dot(y, Padded(w, n)) == Dot(y[..|w|], w)
  {
    hide Dot, Mul;
    var v := Padded(w, n);
    DotSplit(y, v, |w|);
    DotVanishes(y[|w|..], v[|w|..]);
    assert v[..|w|] == w;
  }

  /** The form at a difference. */
  lemma FormOfDifference(p: Matrix, n: nat, z: Vector, v: Vector, u: Vector)
    requires Symmetric(p) && |p| == |z| == |v| == |u| == n
    requires forall i :: 0 <= i < n ==> u[i] == z[i] + Mul(v[i], -1.0)
    ensures Form(p, u) == Form(p, z) - 2.0 * Dot(Apply(p, z), v) + Form(p, v)
  {
    hide Dot, Mul;
    forall i | 0 <= i < n ensures Apply(p, u)[i] == Apply(p, z)[i] + Mul(Apply(p, v)[i], -1.0) {
      DotIsLinear(u, z, -1.0, v, p[i]);
      DotCommutes(p[i], u);
      DotCommutes(p[i], z);
      DotCommutes(p[i], v);
      MulLaws(-1.0, Dot(v, p[i]), 0.0);
    }
    var pu, pz, pv := Apply(p, u), Apply(p, z), Apply(p, v);
    DotIsLinear(u, z, -1.0, v, pu);
    DotIsLinear(pu, pz, -1.0, pv, z);
    DotIsLinear(pu, pz, -1.0, pv, v);
    DotCommutes(pu, z);
    DotCommutes(pu, v);
    DotCommutes(pz, z);
    DotCommutes(pv, v);
    DotCommutes(pv, z);
    FormSymmetric(p, n, z, v);
    MulMinusOne(Dot(v, pu));
    MulMinusOne(Dot(pv, z));
    MulMinusOne(Dot(pv, v));
  }

  lemma MulMinusOne(x: real)
    ensures Mul(-1.0, x) == -x
  {
  }

  /**
    The corrected covariance in Joseph's form: at z it is the old form at z less the padded
    innovation, plus the noise form at the innovation.
   */
  lemma JosephForm(p: Matrix, noise: Matrix, s: Matrix, g: Matrix, x: Matrix, kg: Matrix, n: nat, k: nat, z: Vector)
    returns (u: Vector, w: Vector)
    requires Gain(p, noise, s, g, x, n, k) && |z| == n
    requires IsProduct(kg, Transposed(x, k, n), Transposed(g, n, k), n, k, n)
    ensures |u| == n && |w| == k && (forall i :: 0 <= i < n ==> u[i] == z[i] - Padded(w, n)[i])
    ensures Form(Minus(p, kg, n, n), z) == Form(p, u) + Form(noise, w)
  {
    hide Dot, Mul, Symmetric, Solves;
    w := Apply(x, z);
    var v := Padded(w, n);
    u := seq(n, i requires 0 <= i < n => z[i] - v[i]);
    forall i | 0 <= i < n ensures u[i] == z[i] + Mul(v[i], -1.0) {
      MulLaws(v[i], -1.0, 0.0);
      MulMinusOne(v[i]);
    }
    FormOfDifference(p, n, z, v, u);
    DifferenceForm(p, kg, n, z);
    CorrectionForm(p, noise, s, g, x, kg, n, k, z);
    var h := Apply(Transposed(g, n, k), z);
    CrossTerm(p, g, n, k, z, w);
    DotCommutes(w, h);
    OwnTerm(p, noise, s, g, x, n, k, z);
  }

  lemma DifferenceForm(p: Matrix, kg: Matrix, n: nat, z: Vector)
    requires IsMatrix(p, n, n) && IsMatrix(kg, n, n) && |z| == n
    ensures Form(Minus(p, kg, n, n), z) == Form(p, z) - Form(kg, z)
  {
    hide Form, Mul;
    forall r, c | 0 <= r < n && 0 <= c < n ensures Minus(p, kg, n, n)[r][c] == p[r][c] + Mul(kg[r][c], -1.0) {
      MulLaws(kg[r][c], -1.0, 0.0);
      MulMinusOne(kg[r][c]);
    }
    SumOfForms(Minus(p, kg, n, n), p, -1.0, kg, n, z);
    MulMinusOne(Form(kg, z));
  }

  lemma CrossTerm(p: Matrix, g: Matrix, n: nat, k: nat, z: Vector, w: Vector)
    requires k <= n && IsMatrix(p, n, n) && Symmetric(p) && g == Block(p, n, k) && |z| == n && |w| == k
    ensures Dot(Apply(p, z), Padded(w, n)) == Dot(Apply(Transposed(g, n, k), z), w)
  {
    hide Dot, Mul;
    PaddedDot(w, n, Apply(p, z));
    var h := Transposed(g, n, k);
    forall m | 0 <= m < k ensures p[m] == h[m] {
      assert forall c :: 0 <= c < n ==> p[m][c] == p[c][m] == g[c][m] == h[m][c];
    }
    assert Apply(p, z)[..k] == Apply(h, z);
  }

  /** The form of p at the padded innovation w == x z: w . (g' z) less the noise. */
  lemma OwnTerm(p: Matrix, noise: Matrix, s: Matrix, g: Matrix, x: Matrix, n: nat, k: nat, z: Vector)
    requires Gain(p, noise, s, g, x, n, k) && |z| == n
    ensures IsMatrix(g, n, k)
    ensures var w := Apply(x, z); Form(p, Padded(w, n)) == Dot(Apply(Transposed(g, n, k), z), w) - Form(noise, w)
  {
    hide Dot, Mul, Symmetric, Solves;
    var w, b := Apply(x, z), Block(p, k, k);
    var v := Padded(w, n);
    GainSolves(p, noise, s, g, x, n, k, z);
    PaddedDot(w, n, Apply(p, v));
    DotCommutes(v, Apply(p, v));
    forall m | 0 <= m < k ensures Dot(p[m], v) == Dot(b[m], w) {
      PaddedDot(w, n, p[m]);
      assert p[m][..k] == b[m];
    }
    assert Apply(p, v)[..k] == Apply(b, w);
    DotCommutes(Apply(b, w), w);
    PlusForm(b, noise, k, w);
    DotCommutes(w, Apply(s, w));
  }

  /** A correction keeps the covariance symmetric and positive semidefinite; and definite, if the noise is. */
  lemma CorrectionKeepsCovariance(p: Matrix, noise: Matrix, s: Matrix, g: Matrix, x: Matrix,
      kg: Matrix, n: nat, k: nat)
    requires Gain(p, noise, s, g, x, n, k)
    requires IsProduct(kg, Transposed(x, k, n), Transposed(g, n, k), n, k, n)
    requires PositiveSemidefinite(p) && PositiveSemidefinite(noise)
    ensures var m := Minus(p, kg, n, n);
      && Symmetric(m) && PositiveSemidefinite(m)
      && (PositiveDefinite(p) && PositiveDefinite(noise) ==> PositiveDefinite(m))
  {
    hide Form, Gain, IsProduct;
    CorrectedSymmetric(p, noise, s, g, x, kg, n, k);
    var m := Minus(p, kg, n, n);
    forall z: Vector | |z| == n
      ensures Form(m, z) >= 0.0
      ensures PositiveDefinite(p) && PositiveDefinite(noise) && z != Zeros(n) ==> Form(m, z) > 0.0
    {
      var u, w := JosephForm(p, noise, s, g, x, kg, n, k, z);
      if u == Zeros(n) && w == Zeros(k) {
        assert forall i :: 0 <= i < n ==> z[i] == u[i] + Padded(w, n)[i] == 0.0;
        assert z == Zeros(n);
      }
    }
  }

  lemma CorrectedSymmetric(p: Matrix, noise: Matrix, s: Matrix, g: Matrix, x: Matrix, kg: Matrix, n: nat, k: nat)
    requires Gain(p, noise, s, g, x, n, k)
    requires IsProduct(kg, Transposed(x, k, n), Transposed(g, n, k), n, k, n)
    ensures IsMatrix(p, n, n) && IsMatrix(noise, k, k) && IsMatrix(kg, n, n) && Symmetric(Minus(p, kg, n, n))
    ensures |p| == n && |noise| == k
  {
    hide Dot, Solves, Plus, Block, Transposed;
    CorrectionSymmetric(p, noise, s, g, x, kg, n, k);
    var m := Minus(p, kg, n, n);
    forall r, c | 0 <= r < n && 0 <= c < n ensures m[r][c] == m[c][r] {
      assert m[r][c] == p[r][c] - kg[r][c] && m[c][r] == p[c][r] - kg[c][r];
    }
  }

  /** The innovation covariance of a state: its position block, plus measurement noise. */
  ghost function Innovation(s: State): (m: Matrix)
    requires s.Shaped()
    ensures IsMatrix(m, 4, 4)
  {
    Plus(Block(s.covariance, 4, 4), Diagonal(MeasurementNoise(s.Height())), 4, 4)
  }

  /**
    x is the transposed Kalman gain: the innovation covariance times it gives the first four rows
    of the covariance.
   */
  ghost predicate IsGain(s: State, x: Matrix)
    requires s.Shaped()
  {
    IsMatrix(x, 4, 8) && Solves(Innovation(s), x, Transposed(Block(s.covariance, 8, 4), 8, 4), 4, 8, 8)
  }

  /** The correction of s by z with the transposed gain x. */
  ghost predicate Corrected(s: State, z: Matrix, x: Matrix, t: State)
    requires s.Shaped() && IsMatrix(z, 4, 1)
  {
    && t.Shaped() && IsMatrix(x, 4, 8)
    && (forall i :: 0 <= i < 8 ==>
          t.mean[i][0] == s.mean[i][0] + Dot(Column(x, i), Column(Minus(z, Block(s.mean, 4, 1), 4, 1), 0)))
    && forall i, j :: 0 <= i < 8 && 0 <= j < 8 ==>
         t.covariance[i][j] == s.covariance[i][j] - Dot(Column(x, i), s.covariance[j][..4])
  }

  /** The state is corrected with the Kalman gain, or left alone if there is none. */
  ghost predicate UpdatedBy(s: State, z: Matrix, t: State)
    requires s.Shaped() && IsMatrix(z, 4, 1)
  {
    if PositiveDefinite(Innovation(s)) then exists x :: IsGain(s, x) && Corrected(s, z, x, t) else t == s
  }

  /** The top left block of a definite matrix is definite, and stays so with noise added. */
  lemma InnovationDefinite(p: Matrix, noise: Matrix, n: nat, k: nat)
    requires k <= n && IsMatrix(p, n, n) && PositiveDefinite(p) && IsMatrix(noise, k, k)
    requires PositiveSemidefinite(noise)
    ensures PositiveDefinite(Plus(Block(p, k, k), noise, k, k))
  {
    hide Form, Plus;
    var b := Block(p, k, k);
    forall w: Vector | |w| == k && w != Zeros(k) ensures Form(Plus(b, noise, k, k), w) > 0.0 {
      PlusForm(b, noise, k, w);
      BlockForm(p, n, k, w);
      assert k == 0 ==> w == Zeros(k);
      var i := LastNonzero(w);
      assert Padded(w, n)[i] != Zeros(n)[i];
    }
  }

  lemma BlockForm(p: Matrix, n: nat, k: nat, w: Vector)
    requires k <= n && IsMatrix(p, n, n) && |w| == k
    ensures Form(Block(p, k, k), w) == Form(p, Padded(w, n))
  {
    hide Dot, Mul;
    var v, b := Padded(w, n), Block(p, k, k);
    PaddedDot(w, n, Apply(p, v));
    DotCommutes(v, Apply(p, v));
    forall m | 0 <= m < k ensures Dot(p[m], v) == Dot(b[m], w) {
      PaddedDot(w, n, p[m]);
      assert p[m][..k] == b[m];
    }
    assert Apply(p, v)[..k] == Apply(b, w);
    DotCommutes(Apply(b, w), w);
  }

  /** The solver's result is a gain. */
  lemma SolutionIsGain(s: State, noise: Matrix, x: Matrix)
    requires s.Shaped() && Symmetric(s.covariance)
    requires noise == Diagonal(MeasurementNoise(s.Height())) && IsGain(s, x)
    ensures Gain(s.covariance, noise, Innovation(s), Block(s.covariance, 8, 4), x, 8, 4)
  {
    hide Solves, MeasurementNoise;
  }

  lemma IsCorrected(s: State, z: Matrix, x: Matrix, t: State, gain: Matrix, step: Matrix, kg: Matrix)
    requires s.Shaped() && IsMatrix(z, 4, 1) && IsMatrix(x, 4, 8) && gain == Transposed(x, 4, 8)
    requires IsProduct(step, gain, Minus(z, Block(s.mean, 4, 1), 4, 1), 8, 4, 1)
    requires IsProduct(kg, gain, Transposed(Block(s.covariance, 8, 4), 8, 4), 8, 4, 8)
    requires t == State(Plus(s.mean, step, 8, 1), Minus(s.covariance, kg, 8, 8))
    ensures Corrected(s, z, x, t)
  {
    hide Dot;
    var g := Block(s.covariance, 8, 4);
    forall i | 0 <= i < 8
      ensures t.mean[i][0] == s.mean[i][0] + Dot(Column(x, i), Column(Minus(z, Block(s.mean, 4, 1), 4, 1), 0))
    {
      assert gain[i] == Column(x, i);
    }
    forall i, j | 0 <= i < 8 && 0 <= j < 8
      ensures t.covariance[i][j] == s.covariance[i][j] - Dot(Column(x, i), s.covariance[j][..4])
    {
      assert gain[i] == Column(x, i);
      assert Column(Transposed(g, 8, 4), j) == g[j] == s.covariance[j][..4];
    }
  }

  /**
    Correct the state by a measurement; leave it alone if the innovation covariance is not
    positive definite. That never happens to a definite covariance, and a box of nonzero height
    leaves a definite covariance definite.
   */
  method Update(s: State, z: Matrix, sqrt: real -> real) returns (t: State)
    requires s.Valid() && IsMatrix(z, 4, 1) && IsSqrt(sqrt)
    ensures t.Valid()
    ensures UpdatedBy(s, z, t)
    ensures s.Definite() ==> PositiveDefinite(Innovation(s))
    ensures s.Definite() && s.Height() != 0.0 ==> t.Definite()
  {
    hide Dot, Mul, Apply, PositiveSemidefinite, PositiveDefinite, Plus, Minus, Diagonal, Symmetric,
      MeasurementNoise, Block, Transposed, Solves, IsProduct, Gain, Corrected;
    var noise := Diagonal(MeasurementNoise(s.Height()));
    var g := Block(s.covariance, 8, 4);
    var innovationCov := Plus(Block(s.covariance, 4, 4), noise, 4, 4);
    NoiseLaws(s.Height());
    DiagonalForm(MeasurementNoise(s.Height()));
    InnovationSymmetric(s.covariance, noise, 8, 4);
    if PositiveDefinite(s.covariance) {
      InnovationDefinite(s.covariance, noise, 8, 4);
    }
    var solution := CholeskySolve(innovationCov, Transposed(g, 8, 4), 4, 8, sqrt);
    if solution.None? {
      return s;
    }
    var x := solution.value;
    var gain := Transposed(x, 4, 8);
    var innovation := Minus(z, Block(s.mean, 4, 1), 4, 1);
    var step := Times(gain, innovation, 8, 4, 1);
    var kg := Times(gain, Transposed(g, 8, 4), 8, 4, 8);
    ProductShape(step, gain, innovation, 8, 4, 1);
    ProductShape(kg, gain, Transposed(g, 8, 4), 8, 4, 8);
    t := State(Plus(s.mean, step, 8, 1), Minus(s.covariance, kg, 8, 8));
    SolutionIsGain(s, noise, x);
    CorrectionKeepsCovariance(s.covariance, noise, innovationCov, g, x, kg, 8, 4);
    IsCorrected(s, z, x, t, gain, step, kg);
  }

  lemma ProductShape(m: Matrix, a: Matrix, b: Matrix, rows: nat, inner: nat, cols: nat)
    requires IsMatrix(a, rows, inner) && IsMatrix(b, inner, cols) && IsProduct(m, a, b, rows, inner, cols)
    ensures IsMatrix(m, rows, cols)
  {
  }

  // ---------- boxes and measurements ----------

  /** Centre, aspect ratio and height; the ratio of a box without height is taken as 0. */
  function ToMeasurement(box: Box): (z: Matrix)
    ensures IsMatrix(z, 4, 1)
  {
    var h := box.Height();
    [[box.CenterX()], [box.CenterY()], [if h > 0.0 then box.Width() / h else 0.0], [h]]
  }

  function ToBox(mean: Matrix): Box
    requires |mean| >= 4 && forall i :: 0 <= i < 4 ==> |mean[i]| == 1
  {
    var h := mean[3][0];
    FromCenter(mean[0][0], mean[1][0], mean[2][0] * h, h)
  }

  lemma RatioTimesHeight(w: real, h: real)
    requires h != 0.0
    ensures w / h * h == w
  {
  }

  /** A fresh track reports the very box it was started from, unless that box has a width but no height. */
  lemma MeasurementRoundTrip(box: Box)
    ensures ToBox(Initiate(ToMeasurement(box)).mean) == box <==> (box.Height() > 0.0 || box.Width() == 0.0)
  {
    hide Diagonal, InitialVariances;
    var mean := Initiate(ToMeasurement(box)).mean;
    var h := box.Height();
    if h > 0.0 {
      RatioTimesHeight(box.Width(), h);
    } else {
      assert mean[2][0] * h == 0.0;
    }
  }

  // ---------- whole runs of one filter ----------

  /** What a tracker does to a filter after starting it. */
  datatype Call = Predicting | Correcting(box: Box)

  /** The states a filter goes through: one at the start, and one after each call. */
  ghost predicate Path(first: Box, calls: seq<Call>, ss: seq<State>) {
    && |ss| == |calls| + 1 && ss[0] == Initiate(ToMeasurement(first))
    && forall k :: 0 <= k < |calls| ==> Goes(ss[k], calls[k], ss[k + 1])
  }

  ghost predicate Goes(s: State, call: Call, t: State) {
    && s.Shaped() && t.Shaped()
    && match call
       case Predicting => t == Predicted(s)
       case Correcting(box) => UpdatedBy(s, ToMeasurement(box), t)
  }

  /** Any sequence of predictions and corrections, from any first box. */
  method Track(first: Box, calls: seq<Call>, sqrt: real -> real) returns (s: State, ghost ss: seq<State>)
    requires IsSqrt(sqrt)
    ensures s.Valid()
    ensures Path(first, calls, ss) && ss[|calls|] == s
  {
    hide PositiveSemidefinite, PositiveDefinite, Symmetric, Predicted, UpdatedBy, Initiate, ToMeasurement, IsSqrt;
    s := Initiate(ToMeasurement(first));
    InitiateIsValid(ToMeasurement(first));
    ss := [s];
    var i := 0;
    while i < |calls|
      invariant 0 <= i <= |calls| && s.Valid()
      invariant |ss| == i + 1 && ss[0] == Initiate(ToMeasurement(first)) && ss[i] == s
      invariant forall k :: 0 <= k < i ==> Goes(ss[k], calls[k], ss[k + 1])
    {
      match calls[i] {
        case Predicting => s := Predict(s);
        case Correcting(box) => s := Update(s, ToMeasurement(box), sqrt);
      }
      ss := ss + [s];
      i := i + 1;
    }
  }
}
