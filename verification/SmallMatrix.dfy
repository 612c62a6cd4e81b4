/**
  Small dense matrices over the reals, as sequences of rows: products, transposes, blocks, and
  the Cholesky solver. The square root is a parameter; all that is used of it is its law.
 */
module SmallMatrix {
  import opened Common

  type Vector = seq<real>
  type Matrix = seq<seq<real>>

  ghost predicate IsMatrix(m: Matrix, rows: nat, cols: nat) {
    |m| == rows && forall r :: 0 <= r < rows ==> |m[r]| == cols
  }

  function Mul(x: real, y: real): real {
    x * y
  }

  function Dot(x: Vector, y: Vector): real
    requires |x| == |y|
  {
    if |x| == 0 then 0.0 else Dot(x[..|x| - 1], y[..|y| - 1]) + Mul(x[|x| - 1], y[|y| - 1])
  }

  function Zeros(n: nat): (z: Vector)
    ensures |z| == n && forall i :: 0 <= i < n ==> z[i] == 0.0
  {
    seq(n, _ => 0.0)
  }

  function ZeroMatrix(rows: nat, cols: nat): (m: Matrix)
    ensures IsMatrix(m, rows, cols) && forall r, c :: 0 <= r < rows && 0 <= c < cols ==> m[r][c] == 0.0
  {
    seq(rows, _ => Zeros(cols))
  }

  function Diagonal(d: Vector): (m: Matrix)
    ensures IsMatrix(m, |d|, |d|)
    ensures forall r, c :: 0 <= r < |d| && 0 <= c < |d| ==> m[r][c] == if r == c then d[r] else 0.0
  {
    seq(|d|, r requires 0 <= r < |d| => seq(|d|, c requires 0 <= c < |d| => if r == c then d[r] else 0.0))
  }

  function Column(m: Matrix, c: nat): (v: Vector)
    requires forall r :: 0 <= r < |m| ==> c < |m[r]|
    ensures |v| == |m| && forall r :: 0 <= r < |m| ==> v[r] == m[r][c]
  {
    seq(|m|, r requires 0 <= r < |m| => m[r][c])
  }

  function Transposed(m: Matrix, rows: nat, cols: nat): (t: Matrix)
    requires IsMatrix(m, rows, cols)
    ensures IsMatrix(t, cols, rows)
    ensures forall r, c :: 0 <= r < rows && 0 <= c < cols ==> t[c][r] == m[r][c]
  {
    seq(cols, c requires 0 <= c < cols => Column(m, c))
  }

  /** The top left rows x cols part. */
  function Block(m: Matrix, rows: nat, cols: nat): (b: Matrix)
    requires rows <= |m| && forall r :: 0 <= r < |m| ==> cols <= |m[r]|
    ensures IsMatrix(b, rows, cols)
    ensures forall r, c :: 0 <= r < rows && 0 <= c < cols ==> b[r][c] == m[r][c]
  {
    seq(rows, r requires 0 <= r < rows => m[r][..cols])
  }

  function Plus(a: Matrix, b: Matrix, rows: nat, cols: nat): (m: Matrix)
    requires IsMatrix(a, rows, cols) && IsMatrix(b, rows, cols)
    ensures IsMatrix(m, rows, cols)
    ensures forall r, c :: 0 <= r < rows && 0 <= c < cols ==> m[r][c] == a[r][c] + b[r][c]
  {
    seq(rows, r requires 0 <= r < rows => seq(cols, c requires 0 <= c < cols => a[r][c] + b[r][c]))
  }

  function Minus(a: Matrix, b: Matrix, rows: nat, cols: nat): (m: Matrix)
    requires IsMatrix(a, rows, cols) && IsMatrix(b, rows, cols)
    ensures IsMatrix(m, rows, cols)
    ensures forall r, c :: 0 <= r < rows && 0 <= c < cols ==> m[r][c] == a[r][c] - b[r][c]
  {
    seq(rows, r requires 0 <= r < rows => seq(cols, c requires 0 <= c < cols => a[r][c] - b[r][c]))
  }

  /** The matrix applied to a column vector. */
  ghost function Apply(m: Matrix, x: Vector): (y: Vector)
    requires forall r :: 0 <= r < |m| ==> |m[r]| == |x|
    ensures |y| == |m| && forall r :: 0 <= r < |m| ==> y[r] == Dot(m[r], x)
  {
    seq(|m|, r requires 0 <= r < |m| => Dot(m[r], x))
  }

  ghost predicate Symmetric(m: Matrix) {
    IsMatrix(m, |m|, |m|) && forall r, c :: 0 <= r < |m| && 0 <= c < |m| ==> m[r][c] == m[c][r]
  }

  /** The quadratic form z . m z. */
  ghost function Form(m: Matrix, z: Vector): real
    requires IsMatrix(m, |m|, |m|) && |z| == |m|
  {
    Dot(z, Apply(m, z))
  }

  ghost predicate PositiveDefinite(m: Matrix)
    requires IsMatrix(m, |m|, |m|)
  {
    forall z: Vector :: |z| == |m| && z != Zeros(|m|) ==> Form(m, z) > 0.0
  }

  /** What the solver needs of the square root. */
  ghost predicate IsSqrt(sqrt: real -> real) {
    forall x :: x > 0.0 ==> sqrt(x) > 0.0 && Mul(sqrt(x), sqrt(x)) == x
  }

  // ---------- arithmetic of dot products ----------

  lemma MulLaws(x: real, y: real, z: real)
    ensures Mul(x, y) == Mul(y, x)
    ensures Mul(x, y + z) == Mul(x, y) + Mul(x, z)
    ensures Mul(x + y, z) == Mul(x, z) + Mul(y, z)
    ensures Mul(x, Mul(y, z)) == Mul(Mul(x, y), z)
    ensures Mul(x, 0.0) == 0.0
  {
  }

  lemma {:induction false} DotCommutes(x: Vector, y: Vector)
    requires |x| == |y|
    ensures Dot(x, y) == Dot(y, x)
  {
    hide Mul;
    if |x| > 0 {
      var n := |x| - 1;
      DotCommutes(x[..n], y[..n]);
      MulLaws(x[n], y[n], 0.0);
    }
  }

  lemma {:induction false} DotSplit(x: Vector, y: Vector, k: nat)
    requires |x| == |y| && k <= |x|
    ensures Dot(x, y) == Dot(x[..k], y[..k]) + Dot(x[k..], y[k..])
  {
    hide Mul;
    var n := |x| - 1;
    if k == |x| {
      assert x[..k] == x && y[..k] == y;
    } else {
      assert x[..n][..k] == x[..k] && y[..n][..k] == y[..k];
      assert x[k..][..n - k] == x[..n][k..] && y[k..][..n - k] == y[..n][k..];
      DotSplit(x[..n], y[..n], k);
    }
  }

  /** Terms in which one factor is zero contribute nothing. */
  lemma {:induction false} DotVanishes(x: Vector, y: Vector)
    requires |x| == |y| && forall i :: 0 <= i < |x| ==> x[i] == 0.0 || y[i] == 0.0
    ensures Dot(x, y) == 0.0
  {
    hide Mul;
    if |x| > 0 {
      var n := |x| - 1;
      DotVanishes(x[..n], y[..n]);
      MulLaws(x[n], y[n], 0.0);
      MulLaws(y[n], x[n], 0.0);
    }
  }

  /** A dot product is linear in its first factor. */
  lemma {:induction false} DotIsLinear(w: Vector, u: Vector, a: real, v: Vector, y: Vector)
    requires |w| == |u| == |v| == |y|
    requires forall i :: 0 <= i < |w| ==> w[i] == u[i] + Mul(v[i], a)
    ensures Dot(w, y) == Dot(u, y) + Mul(a, Dot(v, y))
  {
    hide Mul;
    if |w| == 0 {
      MulLaws(a, 0.0, 0.0);
    } else {
      var n := |w| - 1;
      DotIsLinear(w[..n], u[..n], a, v[..n], y[..n]);
      MulLaws(u[n], Mul(v[n], a), y[n]);
      MulLaws(v[n], a, 0.0);
      MulLaws(a, v[n], y[n]);
      MulLaws(a, Dot(v[..n], y[..n]), Mul(v[n], y[n]));
    }
  }

  /** The transpose is the adjoint: x . (m y) == (m' x) . y. */
  lemma {:induction false} Adjoint(m: Matrix, rows: nat, cols: nat, x: Vector, y: Vector)
    requires IsMatrix(m, rows, cols) && |x| == rows && |y| == cols
    ensures Dot(x, Apply(m, y)) == Dot(Apply(Transposed(m, rows, cols), x), y)
  {
    hide Mul, Dot;
    if rows == 0 {
      NoRows(m, cols, x, y);
    } else {
      var n := rows - 1;
      Adjoint(m[..n], n, cols, x[..n], y);
      var t, t' := Transposed(m, rows, cols), Transposed(m[..n], n, cols);
      forall j | 0 <= j < cols ensures Apply(t, x)[j] == Apply(t', x[..n])[j] + Mul(m[n][j], x[n]) {
        assert t[j][..n] == t'[j];
        DotLast(t[j], x);
      }
      DotIsLinear(Apply(t, x), Apply(t', x[..n]), x[n], m[n], y);
      assert Apply(m, y)[..n] == Apply(m[..n], y);
      DotLast(x, Apply(m, y));
    }
  }

  lemma DotLast(x: Vector, y: Vector)
    requires |x| == |y| > 0
    ensures Dot(x, y) == Dot(x[..|x| - 1], y[..|x| - 1]) + Mul(x[|x| - 1], y[|x| - 1])
  {
  }

  lemma NoRows(m: Matrix, cols: nat, x: Vector, y: Vector)
    requires IsMatrix(m, 0, cols) && |x| == 0 && |y| == cols
    ensures Dot(x, Apply(m, y)) == 0.0 == Dot(Apply(Transposed(m, 0, cols), x), y)
  {
    hide Mul;
    forall j | 0 <= j < cols ensures Apply(Transposed(m, 0, cols), x)[j] == 0.0 {
      DotVanishes(Transposed(m, 0, cols)[j], x);
    }
    DotVanishes(Apply(Transposed(m, 0, cols), x), y);
  }

  // ---------- products ----------

  ghost predicate IsProduct(m: Matrix, a: Matrix, b: Matrix, rows: nat, inner: nat, cols: nat)
    requires IsMatrix(a, rows, inner) && IsMatrix(b, inner, cols)
  {
    IsMatrix(m, rows, cols) && forall r, c :: 0 <= r < rows && 0 <= c < cols ==> m[r][c] == Dot(a[r], Column(b, c))
  }

  ghost function Product(a: Matrix, b: Matrix, rows: nat, inner: nat, cols: nat): (m: Matrix)
    requires IsMatrix(a, rows, inner) && IsMatrix(b, inner, cols)
    ensures IsProduct(m, a, b, rows, inner, cols)
  {
    seq(rows, r requires 0 <= r < rows => seq(cols, c requires 0 <= c < cols => Dot(a[r], Column(b, c))))
  }

  lemma ProductIsUnique(m: Matrix, a: Matrix, b: Matrix, rows: nat, inner: nat, cols: nat)
    requires IsMatrix(a, rows, inner) && IsMatrix(b, inner, cols) && IsProduct(m, a, b, rows, inner, cols)
    ensures m == Product(a, b, rows, inner, cols)
  {
    hide Dot;
    var k := Product(a, b, rows, inner, cols);
    forall r | 0 <= r < rows ensures m[r] == k[r] {
      assert forall c :: 0 <= c < cols ==> m[r][c] == k[r][c];
    }
  }

  /** Row times column, accumulated as the program does: row by row, term by term. */
  method Times(a: Matrix, b: Matrix, rows: nat, inner: nat, cols: nat) returns (out: Matrix)
    requires IsMatrix(a, rows, inner) && IsMatrix(b, inner, cols)
    ensures IsProduct(out, a, b, rows, inner, cols)
  {
    hide Mul, Dot;
    out := ZeroMatrix(rows, cols);
    var r := 0;
    while r < rows
      invariant 0 <= r <= rows && IsMatrix(out, rows, cols)
      invariant forall x, c :: 0 <= x < r && 0 <= c < cols ==> out[x][c] == Dot(a[x], Column(b, c))
      invariant forall x, c :: r <= x < rows && 0 <= c < cols ==> out[x][c] == 0.0
    {
      var row := TimesRow(a[r], b, out[r], inner, cols);
      out := out[r := row];
      r := r + 1;
    }
  }

  method TimesRow(x: Vector, b: Matrix, start: Vector, inner: nat, cols: nat) returns (row: Vector)
    requires |x| == inner && IsMatrix(b, inner, cols)
    requires |start| == cols && forall c :: 0 <= c < cols ==> start[c] == 0.0
    ensures |row| == cols && forall c :: 0 <= c < cols ==> row[c] == Dot(x, Column(b, c))
  {
    hide Mul, Dot;
    row := start;
    var k := 0;
    forall c | 0 <= c < cols ensures Dot(x[..0], Column(b, c)[..0]) == 0.0 {
      DotVanishes(x[..0], Column(b, c)[..0]);
    }
    while k < inner
      invariant 0 <= k <= inner && |row| == cols
      invariant forall c :: 0 <= c < cols ==> row[c] == Dot(x[..k], Column(b, c)[..k])
    {
      var term := x[k];
      var c := 0;
      while c < cols
        invariant 0 <= c <= cols && |row| == cols
        invariant forall j :: 0 <= j < c ==> row[j] == Dot(x[..k + 1], Column(b, j)[..k + 1])
        invariant forall j :: c <= j < cols ==> row[j] == Dot(x[..k], Column(b, j)[..k])
      {
        DotLast(x[..k + 1], Column(b, c)[..k + 1]);
        assert x[..k + 1][..k] == x[..k] && Column(b, c)[..k + 1][..k] == Column(b, c)[..k];
        row := row[c := row[c] + Mul(term, b[k][c])];
        c := c + 1;
      }
      k := k + 1;
    }
    forall c | 0 <= c < cols ensures row[c] == Dot(x, Column(b, c)) {
      assert x[..inner] == x && Column(b, c)[..inner] == Column(b, c);
    }
  }

  // ---------- the Cholesky factor ----------

  /** The first j columns of the lower triangular factor are done: rows of l multiply to the entries of a. */
  ghost predicate Factored(a: Matrix, l: Matrix, n: nat, j: nat) {
    && IsMatrix(a, n, n) && IsMatrix(l, n, n) && j <= n
    && (forall r, c :: 0 <= r < n && 0 <= c < n && (c > r || c >= j) ==> l[r][c] == 0.0)
    && (forall c :: 0 <= c < j ==> l[c][c] > 0.0)
    && (forall r, c :: 0 <= c < j && c <= r < n ==> Dot(l[r], l[c]) == a[r][c])
  }

  /** Column j is done in the rows before i. */
  ghost predicate ColumnFactored(a: Matrix, l: Matrix, n: nat, j: nat, i: nat) {
    && IsMatrix(a, n, n) && IsMatrix(l, n, n) && j < i <= n
    && (forall r, c :: 0 <= r < n && 0 <= c < n && (c > r || c > j || (c == j && r >= i)) ==> l[r][c] == 0.0)
    && (forall c :: 0 <= c <= j ==> l[c][c] > 0.0)
    && (forall r, c :: 0 <= c < j && c <= r < n ==> Dot(l[r], l[c]) == a[r][c])
    && (forall r :: j <= r < i ==> Dot(l[r], l[j]) == a[r][j])
  }

  lemma {:induction false} DotIgnores(x: Vector, j: nat, v: real, y: Vector)
    requires |x| == |y| && j < |x| && y[j] == 0.0
    ensures Dot(x[j := v], y) == Dot(x, y)
  {
    hide Mul;
    var n := |x| - 1;
    if j == n {
      MulLaws(v, 0.0, 0.0);
      MulLaws(x[n], 0.0, 0.0);
      assert x[j := v][..n] == x[..n];
    } else {
      assert x[j := v][..n] == x[..n][j := v];
      DotIgnores(x[..n], j, v, y[..n]);
    }
  }

  /** A dot product with a row that ends at j. */
  lemma DotUpTo(x: Vector, y: Vector, j: nat)
    requires |x| == |y| && j < |x| && forall k :: j < k < |y| ==> y[k] == 0.0
    ensures Dot(x, y) == Dot(x[..j], y[..j]) + Mul(x[j], y[j])
  {
    hide Mul, Dot;
    DotSplit(x, y, j + 1);
    DotVanishes(x[j + 1..], y[j + 1..]);
    DotLast(x[..j + 1], y[..j + 1]);
    assert x[..j + 1][..j] == x[..j] && y[..j + 1][..j] == y[..j];
  }

  /** The accumulation loop: start - x . y over a range of indices. */
  method Reduce(start: real, x: Vector, y: Vector, from: nat, to: nat) returns (sum: real)
    requires |x| == |y| && from <= to <= |x|
    ensures sum == start - Dot(x[from..to], y[from..to])
  {
    hide Mul;
    sum := start;
    var k := from;
    while k < to
      invariant from <= k <= to && sum == start - Dot(x[from..k], y[from..k])
    {
      assert x[from..k + 1][..k - from] == x[from..k] && y[from..k + 1][..k - from] == y[from..k];
      sum := sum - Mul(x[k], y[k]);
      k := k + 1;
    }
  }

  lemma Quotient(x: real, d: real)
    requires d != 0.0
    ensures Mul(x / d, d) == x
  {
  }

  /** Writing entry (i, j) leaves the products of finished columns alone. */
  lemma EntryKeepsColumns(l: Matrix, n: nat, i: nat, j: nat, v: real, r: nat, c: nat)
    requires IsMatrix(l, n, n) && j <= i < n && c < j && c <= r < n
    requires forall k :: c < k < n ==> l[c][k] == 0.0
    ensures Dot(l[i := l[i][j := v]][r], l[i := l[i][j := v]][c]) == Dot(l[r], l[c])
  {
    hide Dot;
    DotIgnores(l[r], j, v, l[c]);
  }

  lemma DiagonalDone(a: Matrix, l: Matrix, n: nat, j: nat, v: real)
    requires Factored(a, l, n, j) && j < n && v > 0.0
    requires Mul(v, v) == a[j][j] - Dot(l[j][..j], l[j][..j])
    ensures ColumnFactored(a, l[j := l[j][j := v]], n, j, j + 1)
  {
    hide Dot, Mul;
    var m := l[j := l[j][j := v]];
    forall r, c | 0 <= c < j && c <= r < n ensures Dot(m[r], m[c]) == a[r][c] {
      EntryKeepsColumns(l, n, j, j, v, r, c);
    }
    DotUpTo(m[j], m[j], j);
    assert m[j][..j] == l[j][..j];
  }

  lemma EntryDone(a: Matrix, l: Matrix, n: nat, j: nat, i: nat, v: real)
    requires ColumnFactored(a, l, n, j, i) && i < n
    requires Mul(v, l[j][j]) == a[i][j] - Dot(l[i][..j], l[j][..j])
    ensures ColumnFactored(a, l[i := l[i][j := v]], n, j, i + 1)
  {
    hide Dot, Mul;
    var m := l[i := l[i][j := v]];
    forall r, c | 0 <= c < j && c <= r < n ensures Dot(m[r], m[c]) == a[r][c] {
      EntryKeepsColumns(l, n, i, j, v, r, c);
    }
    DotUpTo(m[i], m[j], j);
    assert m[i][..j] == l[i][..j] && m[j] == l[j];
  }

  /** The factor, or None if some pivot is not positive: that is, if a is not positive definite. */
  method Factor(a: Matrix, n: nat, sqrt: real -> real) returns (l: Matrix, ok: bool, ghost stuck: nat)
    requires IsMatrix(a, n, n) && IsSqrt(sqrt)
    ensures ok ==> Factored(a, l, n, n)
    ensures !ok ==> stuck < n && Factored(a, l, n, stuck) && a[stuck][stuck] <= Dot(l[stuck], l[stuck])
  {
    hide Dot, Mul;
    l := ZeroMatrix(n, n);
    ok, stuck := true, 0;
    var j := 0;
    while j < n
      invariant 0 <= j <= n && Factored(a, l, n, j)
    {
      var diag := Reduce(a[j][j], l[j], l[j], 0, j);
      assert l[j][0..j] == l[j][..j];
      if !(diag > 0.0) {
        DotUpTo(l[j], l[j], j);
        MulLaws(0.0, 0.0, 0.0);
        ok, stuck := false, j;
        return;
      }
      DiagonalDone(a, l, n, j, sqrt(diag));
      l := l[j := l[j][j := sqrt(diag)]];
      var i := j + 1;
      while i < n
        invariant j < i <= n && ColumnFactored(a, l, n, j, i)
      {
        var sum := Reduce(a[i][j], l[i], l[j], 0, j);
        assert l[i][0..j] == l[i][..j] && l[j][0..j] == l[j][..j];
        Quotient(sum, l[j][j]);
        EntryDone(a, l, n, j, i, sum / l[j][j]);
        l := l[i := l[i][j := sum / l[j][j]]];
        i := i + 1;
      }
      ColumnDone(a, l, n, j);
      j := j + 1;
    }
  }

  lemma ColumnDone(a: Matrix, l: Matrix, n: nat, j: nat)
    requires ColumnFactored(a, l, n, j, n)
    ensures Factored(a, l, n, j + 1)
  {
    hide Dot;
  }

  // ---------- solving with the factor ----------

  /** A dot product with a vector that begins at j. */
  lemma DotFrom(x: Vector, y: Vector, j: nat)
    requires |x| == |y| && j < |x| && forall k :: 0 <= k < j ==> y[k] == 0.0
    ensures Dot(x, y) == Mul(x[j], y[j]) + Dot(x[j + 1..], y[j + 1..])
  {
    hide Mul, Dot;
    DotSplit(x, y, j + 1);
    DotLast(x[..j + 1], y[..j + 1]);
    DotVanishes(x[..j], y[..j]);
    assert x[..j + 1][..j] == x[..j] && y[..j + 1][..j] == y[..j];
  }

  ghost predicate LowerTriangular(l: Matrix, n: nat) {
    && IsMatrix(l, n, n) && (forall r, c :: 0 <= r < c < n ==> l[r][c] == 0.0)
       && (forall i :: 0 <= i < n ==> l[i][i] > 0.0)
  }

  /** `x` with one entry of column col changed. */
  function SetEntry(x: Matrix, r: nat, col: nat, v: real): (x': Matrix)
    requires r < |x| && forall i :: 0 <= i < |x| ==> col < |x[i]|
    ensures |x'| == |x| && (forall i :: 0 <= i < |x| ==> |x'[i]| == |x[i]|)
    ensures Column(x', col) == Column(x, col)[r := v]
    ensures forall i, c :: 0 <= i < |x| && 0 <= c < |x[i]| && c != col ==> x'[i][c] == x[i][c]
  {
    x[r := x[r][col := v]]
  }

  /** The two matrices agree but for column col. */
  ghost predicate OtherColumns(x: Matrix, y: Matrix, rows: nat, cols: nat, col: nat)
    requires IsMatrix(x, rows, cols) && IsMatrix(y, rows, cols)
  {
    forall i, c :: 0 <= i < rows && 0 <= c < cols && c != col ==> x[i][c] == y[i][c]
  }

  /** Forward substitution in one column: l y == b. */
  method Forward(l: Matrix, b: Matrix, n: nat, cols: nat, col: nat) returns (x: Matrix)
    requires LowerTriangular(l, n) && IsMatrix(b, n, cols) && col < cols
    ensures IsMatrix(x, n, cols) && OtherColumns(x, b, n, cols, col)
    ensures forall r :: 0 <= r < n ==> Dot(Column(x, col), l[r]) == b[r][col]
  {
    hide Dot, Mul;
    x := b;
    var i := 0;
    while i < n
      invariant 0 <= i <= n && IsMatrix(x, n, cols) && OtherColumns(x, b, n, cols, col)
      invariant forall r :: 0 <= r < i ==> Dot(Column(x, col), l[r]) == b[r][col]
      invariant forall r :: i <= r < n ==> x[r][col] == b[r][col]
    {
      ghost var y := Column(x, col);
      var sum := Reduce(x[i][col], Column(x, col), l[i], 0, i);
      assert y[0..i] == y[..i] && l[i][0..i] == l[i][..i];
      var v := sum / l[i][i];
      Quotient(sum, l[i][i]);
      ghost var z := y[i := v];
      DotUpTo(z, l[i], i);
      assert z[..i] == y[..i];
      forall r | 0 <= r < i ensures Dot(z, l[r]) == b[r][col] {
        DotIgnores(y, i, v, l[r]);
      }
      x := SetEntry(x, i, col, v);
      assert Column(x, col) == z;
      assert forall r :: i < r < n ==> x[r][col] == z[r];
      i := i + 1;
    }
  }

  /** Back substitution in one column: the transpose of l, times x, is y. */
  method Backward(l: Matrix, y: Matrix, n: nat, cols: nat, col: nat) returns (x: Matrix)
    requires LowerTriangular(l, n) && IsMatrix(y, n, cols) && col < cols
    ensures IsMatrix(x, n, cols) && OtherColumns(x, y, n, cols, col)
    ensures forall r :: 0 <= r < n ==> Dot(Column(x, col), Column(l, r)) == y[r][col]
  {
    hide Dot, Mul;
    x := y;
    var i := n;
    while i > 0
      invariant 0 <= i <= n && IsMatrix(x, n, cols) && OtherColumns(x, y, n, cols, col)
      invariant forall r :: i <= r < n ==> Dot(Column(x, col), Column(l, r)) == y[r][col]
      invariant forall r :: 0 <= r < i ==> x[r][col] == y[r][col]
    {
      i := i - 1;
      ghost var w := Column(x, col);
      var sum := Reduce(x[i][col], Column(x, col), Column(l, i), i + 1, n);
      assert w[i + 1..n] == w[i + 1..] && Column(l, i)[i + 1..n] == Column(l, i)[i + 1..];
      var v := sum / l[i][i];
      Quotient(sum, l[i][i]);
      ghost var z := w[i := v];
      DotFrom(z, Column(l, i), i);
      assert z[i + 1..] == w[i + 1..];
      forall r | i < r < n ensures Dot(z, Column(l, r)) == y[r][col] {
        DotIgnores(w, i, v, Column(l, r));
      }
      x := SetEntry(x, i, col, v);
      assert Column(x, col) == z;
      assert forall r :: 0 <= r < i ==> x[r][col] == z[r];
    }
  }

  /** A factored symmetric matrix is the factor times its transpose. */
  lemma FactoredRows(a: Matrix, l: Matrix, n: nat)
    requires Factored(a, l, n, n) && Symmetric(a)
    ensures forall i :: 0 <= i < n ==> a[i] == Apply(l, l[i])
  {
    hide Dot;
    forall i, k | 0 <= i < n && 0 <= k < n ensures a[i][k] == Dot(l[k], l[i]) {
      DotCommutes(l[k], l[i]);
      assert a[i][k] == a[k][i];
    }
    forall i | 0 <= i < n ensures a[i] == Apply(l, l[i]) {}
  }

  /** One column of the solution, put back together. */
  lemma SolvedColumn(a: Matrix, l: Matrix, n: nat, x: Vector, y: Vector, b: Vector)
    requires Factored(a, l, n, n) && Symmetric(a) && |x| == |y| == |b| == n
    requires forall r :: 0 <= r < n ==> Dot(x, Column(l, r)) == y[r] && Dot(y, l[r]) == b[r]
    ensures Apply(a, x) == b
  {
    hide Dot;
    FactoredRows(a, l, n);
    forall r | 0 <= r < n ensures Apply(Transposed(l, n, n), x)[r] == y[r] {
      DotCommutes(x, Column(l, r));
    }
    assert Apply(Transposed(l, n, n), x) == y;
    forall i | 0 <= i < n ensures Dot(a[i], x) == b[i] {
      DotCommutes(a[i], x);
      Adjoint(l, n, n, x, l[i]);
    }
  }

  /** The columns before k of x solve the system. */
  ghost predicate Solves(a: Matrix, x: Matrix, b: Matrix, n: nat, cols: nat, k: nat)
    requires IsMatrix(a, n, n) && IsMatrix(x, n, cols) && IsMatrix(b, n, cols) && k <= cols
  {
    forall c :: 0 <= c < k ==> Apply(a, Column(x, c)) == Column(b, c)
  }

  lemma OneColumnMore(a: Matrix, x: Matrix, x': Matrix, b: Matrix, n: nat, cols: nat, k: nat)
    requires IsMatrix(a, n, n) && IsMatrix(x, n, cols) && IsMatrix(x', n, cols)
    requires IsMatrix(b, n, cols) && k < cols
    requires Solves(a, x, b, n, cols, k) && OtherColumns(x', x, n, cols, k)
    requires Apply(a, Column(x', k)) == Column(b, k)
    ensures Solves(a, x', b, n, cols, k + 1)
  {
    hide Apply;
    forall c | 0 <= c < k ensures Apply(a, Column(x', c)) == Column(b, c) {
      assert Column(x', c) == Column(x, c);
    }
  }

  /**
    For a symmetric matrix: the solution of a x == b if a is positive definite, and None if
    it is not.
   */
  method CholeskySolve(a: Matrix, b: Matrix, n: nat, cols: nat, sqrt: real -> real) returns (r: Option<Matrix>)
    requires IsMatrix(a, n, n) && IsMatrix(b, n, cols) && IsSqrt(sqrt)
    ensures r.Some? ==> IsMatrix(r.value, n, cols)
    ensures Symmetric(a) ==> (r.Some? <==> PositiveDefinite(a))
    ensures Symmetric(a) && r.Some? ==> Solves(a, r.value, b, n, cols, cols)
  {
    hide Dot, Mul, PositiveDefinite, Apply;
    ghost var stuck;
    var l, ok;
    l, ok, stuck := Factor(a, n, sqrt);
    if !ok {
      if Symmetric(a) {
        NotPositiveDefinite(a, l, n, stuck);
      }
      return None;
    }
    if Symmetric(a) {
      FactoredIsPositive(a, l, n);
    }
    var x := b;
    var col := 0;
    while col < cols
      invariant 0 <= col <= cols && IsMatrix(x, n, cols)
      invariant forall i, c :: 0 <= i < n && col <= c < cols ==> x[i][c] == b[i][c]
      invariant Symmetric(a) ==> Solves(a, x, b, n, cols, col)
    {
      var y := Forward(l, x, n, cols, col);
      var z := Backward(l, y, n, cols, col);
      if Symmetric(a) {
        SolvedColumn(a, l, n, Column(z, col), Column(y, col), Column(b, col));
        OneColumnMore(a, x, z, b, n, cols, col);
      }
      x := z;
      col := col + 1;
    }
    r := Some(x);
  }

  // ---------- success and positive definiteness ----------

  lemma ProductIsPositive(x: real, y: real)
    requires x > 0.0 && y > 0.0
    ensures Mul(x, y) > 0.0
  {
  }

  lemma SignsCancel(x: real, y: real)
    ensures Mul(-x, -y) == Mul(x, y)
  {
  }

  lemma SquareLaw(x: real)
    ensures Mul(x, x) >= 0.0 && (x != 0.0 ==> Mul(x, x) > 0.0)
  {
    if x > 0.0 {
      ProductIsPositive(x, x);
    } else if x < 0.0 {
      ProductIsPositive(-x, -x);
      SignsCancel(x, x);
    }
  }

  lemma {:induction false} SquareIsPositive(w: Vector)
    ensures Dot(w, w) >= 0.0
    ensures forall t :: 0 <= t < |w| && w[t] != 0.0 ==> Dot(w, w) > 0.0
  {
    hide Mul;
    if |w| > 0 {
      var n := |w| - 1;
      SquareIsPositive(w[..n]);
      SquareLaw(w[n]);
      assert forall t :: 0 <= t < n ==> w[..n][t] == w[t];
    }
  }

  /** The last nonzero entry of a vector. */
  lemma {:induction false} LastNonzero(z: Vector) returns (t: nat)
    requires |z| > 0 && z != Zeros(|z|)
    ensures t < |z| && z[t] != 0.0 && forall k :: t < k < |z| ==> z[k] == 0.0
  {
    var n := |z| - 1;
    if z[n] != 0.0 {
      t := n;
    } else {
      assert z == z[..n] + [0.0];
      t := LastNonzero(z[..n]);
    }
  }

  /** For a factored matrix z . a z is the square of the transposed factor times z. */
  lemma FactoredForm(a: Matrix, l: Matrix, n: nat, z: Vector)
    requires Factored(a, l, n, n) && Symmetric(a) && |z| == n
    ensures var w := Apply(Transposed(l, n, n), z); Dot(z, Apply(a, z)) == Dot(w, w)
  {
    hide Dot;
    var w := Apply(Transposed(l, n, n), z);
    FactoredRows(a, l, n);
    forall i | 0 <= i < n ensures Apply(a, z)[i] == Dot(l[i], w) {
      DotCommutes(a[i], z);
      Adjoint(l, n, n, z, l[i]);
      DotCommutes(w, l[i]);
    }
    assert Apply(a, z) == Apply(l, w);
    Adjoint(l, n, n, z, w);
  }

  lemma MulNonzero(x: real, y: real)
    requires x != 0.0 && y != 0.0
    ensures Mul(x, y) != 0.0
  {
  }

  lemma FactoredIsPositive(a: Matrix, l: Matrix, n: nat)
    requires Factored(a, l, n, n) && Symmetric(a)
    ensures PositiveDefinite(a)
  {
    hide Dot, Mul, Apply;
    forall z: Vector | |z| == n && z != Zeros(n) ensures Dot(z, Apply(a, z)) > 0.0 {
      var t := LastNonzero(z);
      var w := Apply(Transposed(l, n, n), z);
      FactoredForm(a, l, n, z);
      FormAtLast(l, n, z, t);
      SquareIsPositive(w);
    }
  }

  lemma FormAtLast(l: Matrix, n: nat, z: Vector, t: nat)
    requires LowerTriangular(l, n) && |z| == n && t < n && z[t] != 0.0 && forall k :: t < k < n ==> z[k] == 0.0
    ensures Apply(Transposed(l, n, n), z)[t] != 0.0
  {
    hide Dot, Mul;
    var c := Column(l, t);
    DotFrom(z, c, t);
    DotVanishes(z[t + 1..], c[t + 1..]);
    DotCommutes(z, c);
    MulNonzero(z[t], c[t]);
    assert Transposed(l, n, n)[t] == c;
  }

  /** A vector with a one at j that the first j columns of the factor all annihilate. */
  lemma {:induction false} Annihilator(l: Matrix, n: nat, j: nat, k: nat) returns (z: Vector)
    requires IsMatrix(l, n, n) && k <= j < n
    requires forall r, c :: 0 <= r < c < n ==> l[r][c] == 0.0
    requires forall c :: 0 <= c < j ==> l[c][c] > 0.0
    ensures |z| == n && z[j] == 1.0 && (forall i :: j < i < n ==> z[i] == 0.0)
    ensures forall c :: k <= c < j ==> Dot(z, Column(l, c)) == 0.0
    decreases j - k
  {
    hide Dot, Mul;
    if k == j {
      z := Zeros(n)[j := 1.0];
    } else {
      var y := Annihilator(l, n, j, k + 1);
      var c := Column(l, k);
      var rest := Dot(y[k + 1..], c[k + 1..]);
      var v := -rest / l[k][k];
      Quotient(-rest, l[k][k]);
      z := y[k := v];
      DotFrom(z, c, k);
      assert z[k + 1..] == y[k + 1..];
      forall i | k < i < j ensures Dot(z, Column(l, i)) == 0.0 {
        DotIgnores(y, k, v, Column(l, i));
      }
    }
  }

  lemma NotPositiveDefinite(a: Matrix, l: Matrix, n: nat, j: nat)
    requires Symmetric(a) && j < n && Factored(a, l, n, j) && a[j][j] <= Dot(l[j], l[j])
    ensures !PositiveDefinite(a)
  {
    hide Dot, Mul, Apply;
    var z := Annihilator(l, n, j, 0);
    var short := a[j][j] - Dot(l[j], l[j]);
    forall r | 0 <= r <= j ensures Dot(a[r], z) == if r == j then short else 0.0 {
      StuckRow(a, l, n, j, z, r);
    }
    StuckForm(a, n, j, z, short);
    assert z != Zeros(n);
  }

  /** The annihilating vector is sent to zero, but for the pivot. */
  lemma StuckRow(a: Matrix, l: Matrix, n: nat, j: nat, z: Vector, r: nat)
    requires Symmetric(a) && r <= j < n && Factored(a, l, n, j) && |z| == n && z[j] == 1.0
    requires (forall i :: j < i < n ==> z[i] == 0.0) && forall c :: 0 <= c < j ==> Dot(z, Column(l, c)) == 0.0
    ensures Dot(a[r], z) == if r == j then a[j][j] - Dot(l[j], l[j]) else 0.0
  {
    hide Dot, Mul;
    var w, u := Apply(Transposed(l, n, n), z), Apply(l, l[r]);
    forall c | 0 <= c < n ensures w[c] == 0.0 {
      DotCommutes(z, Column(l, c));
      if c >= j {
        DotVanishes(Column(l, c), z);
      }
    }
    Adjoint(l, n, n, z, l[r]);
    DotVanishes(w, l[r]);
    DotCommutes(z, u);
    assert Dot(u, z) == 0.0;
    forall c | 0 <= c <= j && !(r == j && c == j) ensures u[c] == a[r][c] {
      DotCommutes(l[r], l[c]);
      assert a[r][c] == a[c][r];
    }
    DotUpTo(a[r], z, j);
    DotUpTo(u, z, j);
    assert a[r][..j] == u[..j];
    MulByOne(a[r][j]);
    MulByOne(u[j]);
  }

  lemma MulByOne(x: real)
    ensures Mul(x, 1.0) == x
  {
  }

  lemma StuckForm(a: Matrix, n: nat, j: nat, z: Vector, short: real)
    requires IsMatrix(a, n, n) && j < n && |z| == n && z[j] == 1.0 && (forall i :: j < i < n ==> z[i] == 0.0)
    requires forall r :: 0 <= r <= j ==> Dot(a[r], z) == if r == j then short else 0.0
    ensures Dot(z, Apply(a, z)) == short
  {
    hide Dot, Mul;
    var y := Apply(a, z);
    DotUpTo(y, z, j);
    DotVanishes(y[..j], z[..j]);
    MulByOne(y[j]);
    DotCommutes(y, z);
  }

  // ---------- quadratic forms ----------

  ghost predicate PositiveSemidefinite(m: Matrix)
    requires IsMatrix(m, |m|, |m|)
  {
    forall z: Vector :: |z| == |m| ==> Form(m, z) >= 0.0
  }

  lemma SymmetricIsTransposed(m: Matrix, n: nat)
    requires Symmetric(m) && |m| == n
    ensures Transposed(m, n, n) == m
  {
    var t := Transposed(m, n, n);
    forall r | 0 <= r < n ensures t[r] == m[r] {
      forall c | 0 <= c < n ensures t[r][c] == m[r][c] {
        assert t[r][c] == m[c][r];
      }
    }
  }

  lemma FormSymmetric(m: Matrix, n: nat, x: Vector, y: Vector)
    requires Symmetric(m) && |m| == |x| == |y| == n
    ensures Dot(x, Apply(m, y)) == Dot(Apply(m, x), y)
  {
    hide Dot;
    SymmetricIsTransposed(m, n);
    Adjoint(m, n, n, x, y);
  }

  /** Adding matrices adds their forms; so does subtracting, with the sign. */
  lemma SumOfForms(m: Matrix, a: Matrix, s: real, b: Matrix, n: nat, z: Vector)
    requires IsMatrix(m, n, n) && IsMatrix(a, n, n) && IsMatrix(b, n, n) && |z| == n
    requires forall r, c :: 0 <= r < n && 0 <= c < n ==> m[r][c] == a[r][c] + Mul(b[r][c], s)
    ensures Form(m, z) == Form(a, z) + Mul(s, Form(b, z))
  {
    hide Dot, Mul;
    forall r | 0 <= r < n ensures Apply(m, z)[r] == Apply(a, z)[r] + Mul(Apply(b, z)[r], s) {
      DotIsLinear(m[r], a[r], s, b[r], z);
      MulLaws(s, Dot(b[r], z), 0.0);
    }
    DotIsLinear(Apply(m, z), Apply(a, z), s, Apply(b, z), z);
    DotCommutes(Apply(m, z), z);
    DotCommutes(Apply(a, z), z);
    DotCommutes(Apply(b, z), z);
  }

  /** A dot product of terms that are not negative. */
  lemma {:induction false} DotIsPositive(x: Vector, y: Vector)
    requires |x| == |y| && forall i :: 0 <= i < |x| ==> Mul(x[i], y[i]) >= 0.0
    ensures Dot(x, y) >= 0.0
    ensures forall t :: 0 <= t < |x| && Mul(x[t], y[t]) > 0.0 ==> Dot(x, y) > 0.0
  {
    hide Mul;
    if |x| > 0 {
      var n := |x| - 1;
      assert forall t :: 0 <= t < n ==> x[..n][t] == x[t] && y[..n][t] == y[t];
      DotIsPositive(x[..n], y[..n]);
    }
  }

  lemma ProductIsNotNegative(x: real, y: real)
    requires x >= 0.0 && y >= 0.0
    ensures Mul(x, y) >= 0.0
  {
  }

  lemma DiagonalApplied(d: Vector, z: Vector, r: nat)
    requires |d| == |z| && r < |d|
    ensures Apply(Diagonal(d), z)[r] == Mul(z[r], d[r])
  {
    hide Dot, Mul;
    var row := Diagonal(d)[r];
    DotCommutes(row, z);
    DotFrom(z, row, r);
    DotVanishes(z[r + 1..], row[r + 1..]);
  }

  /** The form of a diagonal matrix with entries that are not negative, or all positive. */
  lemma DiagonalForm(d: Vector)
    requires forall i :: 0 <= i < |d| ==> d[i] >= 0.0
    ensures Symmetric(Diagonal(d)) && PositiveSemidefinite(Diagonal(d))
    ensures (forall i :: 0 <= i < |d| ==> d[i] > 0.0) ==> PositiveDefinite(Diagonal(d))
  {
    hide Dot, Mul, Apply;
    forall z: Vector | |z| == |d|
      ensures Dot(z, Apply(Diagonal(d), z)) >= 0.0
      ensures z != Zeros(|d|) && (forall i :: 0 <= i < |d| ==> d[i] > 0.0) ==> Dot(z, Apply(Diagonal(d), z)) > 0.0
    {
      DiagonalFormAt(d, z);
    }
  }

  lemma DiagonalFormAt(d: Vector, z: Vector)
    requires |d| == |z| && forall i :: 0 <= i < |d| ==> d[i] >= 0.0
    ensures Dot(z, Apply(Diagonal(d), z)) >= 0.0
    ensures z != Zeros(|d|) && (forall i :: 0 <= i < |d| ==> d[i] > 0.0) ==> Dot(z, Apply(Diagonal(d), z)) > 0.0
  {
    hide Dot, Mul;
    var y := Apply(Diagonal(d), z);
    forall i | 0 <= i < |d| ensures Mul(z[i], y[i]) >= 0.0 && (z[i] != 0.0 && d[i] > 0.0 ==> Mul(z[i], y[i]) > 0.0) {
      DiagonalApplied(d, z, i);
      MulLaws(z[i], z[i], d[i]);
      SquareLaw(z[i]);
      ProductIsNotNegative(Mul(z[i], z[i]), d[i]);
      if z[i] != 0.0 && d[i] > 0.0 {
        ProductIsPositive(Mul(z[i], z[i]), d[i]);
      }
    }
    DotIsPositive(z, y);
    if z != Zeros(|d|) {
      var t := LastNonzero(z);
    }
  }

  /** The form of m at z is the form of p at f' z. */
  ghost predicate SandwichedAt(f: Matrix, p: Matrix, m: Matrix, n: nat, z: Vector)
    requires IsMatrix(f, n, n) && IsMatrix(p, n, n) && IsMatrix(m, n, n) && |z| == n
  {
    Form(m, z) == Form(p, Apply(Transposed(f, n, n), z))
  }

  /** f p f', for a symmetric p: symmetric again, with the form of p at f' z. */
  lemma Sandwich(f: Matrix, p: Matrix, fp: Matrix, m: Matrix, n: nat)
    requires IsMatrix(f, n, n) && IsMatrix(p, n, n) && Symmetric(p)
    requires IsProduct(fp, f, p, n, n, n) && IsProduct(m, fp, Transposed(f, n, n), n, n, n)
    ensures Symmetric(m)
    ensures forall z: Vector :: |z| == n ==> SandwichedAt(f, p, m, n, z)
  {
    hide IsProduct, SandwichedAt, RowsSandwiched, Transposed;
    SandwichRows(f, p, fp, m, n);
    forall r, c | 0 <= r < n && 0 <= c < n ensures m[r][c] == m[c][r] {
      SandwichEntries(f, p, m, n, r, c);
    }
    forall z: Vector | |z| == n ensures SandwichedAt(f, p, m, n, z) {
      SandwichForm(f, p, m, n, z);
    }
  }

  ghost predicate RowsSandwiched(f: Matrix, p: Matrix, m: Matrix, n: nat)
    requires IsMatrix(f, n, n) && IsMatrix(p, n, n)
  {
    IsMatrix(m, n, n) && forall r :: 0 <= r < n ==> m[r] == Apply(f, Apply(p, f[r]))
  }

  lemma SandwichRows(f: Matrix, p: Matrix, fp: Matrix, m: Matrix, n: nat)
    requires IsMatrix(f, n, n) && IsMatrix(p, n, n) && Symmetric(p)
    requires IsProduct(fp, f, p, n, n, n) && IsProduct(m, fp, Transposed(f, n, n), n, n, n)
    ensures IsMatrix(m, n, n) && RowsSandwiched(f, p, m, n)
  {
    hide Dot, Apply, Transposed;
    forall r | 0 <= r < n ensures m[r] == Apply(f, Apply(p, f[r])) {
      SandwichRow(f, p, fp, m, n, r);
    }
  }

  lemma SandwichEntries(f: Matrix, p: Matrix, m: Matrix, n: nat, r: nat, c: nat)
    requires IsMatrix(f, n, n) && IsMatrix(p, n, n) && Symmetric(p) && IsMatrix(m, n, n) && r < n && c < n
    requires RowsSandwiched(f, p, m, n)
    ensures m[r][c] == m[c][r]
  {
    hide Dot, Apply, Symmetric;
    SandwichEntry(f, p, m, n, r, c);
    SandwichEntry(f, p, m, n, c, r);
    DotCommutes(f[c], Apply(p, f[r]));
    FormSymmetric(p, n, f[r], f[c]);
  }

  lemma SandwichRow(f: Matrix, p: Matrix, fp: Matrix, m: Matrix, n: nat, r: nat)
    requires IsMatrix(f, n, n) && IsMatrix(p, n, n) && Symmetric(p) && r < n
    requires IsProduct(fp, f, p, n, n, n) && IsProduct(m, fp, Transposed(f, n, n), n, n, n)
    ensures m[r] == Apply(f, Apply(p, f[r]))
  {
    hide Dot;
    forall j | 0 <= j < n ensures fp[r][j] == Apply(p, f[r])[j] {
      assert Column(p, j) == p[j];
      DotCommutes(f[r], p[j]);
    }
    assert fp[r] == Apply(p, f[r]);
    forall c | 0 <= c < n ensures m[r][c] == Dot(f[c], fp[r]) {
      assert Column(Transposed(f, n, n), c) == f[c];
      DotCommutes(fp[r], f[c]);
    }
  }

  lemma SandwichEntry(f: Matrix, p: Matrix, m: Matrix, n: nat, r: nat, c: nat)
    requires IsMatrix(f, n, n) && IsMatrix(p, n, n) && IsMatrix(m, n, n) && r < n && c < n
    requires m[r] == Apply(f, Apply(p, f[r]))
    ensures m[r][c] == Dot(f[c], Apply(p, f[r]))
  {
    hide Dot;
  }

  lemma SandwichForm(f: Matrix, p: Matrix, m: Matrix, n: nat, z: Vector)
    requires IsMatrix(f, n, n) && IsMatrix(p, n, n) && Symmetric(p) && IsMatrix(m, n, n) && |z| == n
    requires RowsSandwiched(f, p, m, n)
    ensures SandwichedAt(f, p, m, n, z)
  {
    hide Dot;
    var q := Apply(Transposed(f, n, n), z);
    forall r | 0 <= r < n ensures Dot(m[r], z) == Dot(f[r], Apply(p, q)) {
      DotCommutes(m[r], z);
      Adjoint(f, n, n, z, Apply(p, f[r]));
      FormSymmetric(p, n, q, f[r]);
      DotCommutes(Apply(p, q), f[r]);
    }
    assert Apply(m, z) == Apply(f, Apply(p, q));
    Adjoint(f, n, n, z, Apply(p, q));
  }
}
