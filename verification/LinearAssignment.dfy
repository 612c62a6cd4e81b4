/**
  The gated Hungarian solver: it fills the extended square matrix, adds one row per phase by a
  shortest augmenting path, and reads the real pairs back.
 */
module LinearAssignment {
  import opened GatedMatching
  import opened Potentials
  import opened Sums

  datatype AssignmentResult = AssignmentResult(matches: seq<Pair>, unmatchedRows: seq<int>, unmatchedCols: seq<int>)

  datatype Outcome = Solved(result: AssignmentResult) | SizeMismatch

  /** The cost matrix that a row-major buffer stands for. */
  ghost function FromRowMajor(cost: seq<real>, rows: nat, cols: nat): (m: seq<seq<real>>)
    requires rows * cols <= |cost|
    ensures |m| == rows && forall r :: 0 <= r < rows ==> |m[r]| == cols
  {
    seq(rows, r requires 0 <= r < rows =>
      seq(cols, c requires 0 <= c < cols => (RowMajorIndex(rows, cols, r, c); cost[r * cols + c])))
  }

  lemma RowMajorIndex(rows: nat, cols: nat, r: int, c: int)
    requires 0 <= r < rows && 0 <= c < cols
    ensures 0 <= r * cols + c < rows * cols
  {
    assert (r + 1) * cols <= rows * cols;
  }

  ghost function ExtendedMatrix(p: Problem): (a: Matrix)
    requires p.Valid()
    ensures Square(a, p.Size())
  {
    var n := p.Size();
    seq(n, r requires 0 <= r < n => seq(n, c requires 0 <= c < n => p.Extended(r, c)))
  }

  /** The numbers below `k` that are not in `taken`, in order. */
  function Missing(taken: set<int>, k: nat): (s: seq<int>) {
    if k == 0 then []
    else if k - 1 in taken then Missing(taken, k - 1)
    else Missing(taken, k - 1) + [k - 1]
  }

  /** `Missing` lists exactly the numbers it should, each once, in increasing order. */
  lemma {:induction false} MissingIsComplement(taken: set<int>, k: nat)
    ensures forall x :: x in Missing(taken, k) <==> 0 <= x < k && x !in taken
    ensures forall i, j :: 0 <= i < j < |Missing(taken, k)| ==> Missing(taken, k)[i] < Missing(taken, k)[j]
  {
    if k > 0 {
      MissingIsComplement(taken, k - 1);
      var s := Missing(taken, k - 1);
      assert forall i :: 0 <= i < |s| ==> s[i] in s;
    }
  }

  lemma {:induction false} MissingIgnores(taken: set<int>, k: nat, x: int)
    requires x >= k
    ensures Missing(taken + {x}, k) == Missing(taken, k)
  {
    if k > 0 {
      MissingIgnores(taken, k - 1, x);
    }
  }

  lemma {:induction false} MissingCount(taken: set<int>, k: nat)
    requires forall x :: x in taken ==> 0 <= x < k
    ensures |Missing(taken, k)| + |taken| == k
  {
    if k == 0 {
      assert taken == {} by {
        assert forall x :: x in taken ==> 0 <= x < k;
      }
    } else if k - 1 in taken {
      MissingIgnores(taken - {k - 1}, k - 1, k - 1);
      assert taken - {k - 1} + {k - 1} == taken;
      MissingCount(taken - {k - 1}, k - 1);
    } else {
      MissingCount(taken, k - 1);
    }
  }

  ghost function RowsOf(m: seq<Pair>): set<int> {
    if |m| == 0 then {} else RowsOf(m[..|m| - 1]) + {m[|m| - 1].0}
  }

  ghost function ColsOf(m: seq<Pair>): set<int> {
    if |m| == 0 then {} else ColsOf(m[..|m| - 1]) + {m[|m| - 1].1}
  }

  lemma {:induction false} EndsOf(m: seq<Pair>)
    ensures forall r :: r in RowsOf(m) <==> exists i :: 0 <= i < |m| && m[i].0 == r
    ensures forall c :: c in ColsOf(m) <==> exists i :: 0 <= i < |m| && m[i].1 == c
  {
    if |m| > 0 {
      var k := |m| - 1;
      EndsOf(m[..k]);
      forall r ensures r in RowsOf(m) <==> exists i :: 0 <= i < |m| && m[i].0 == r {
        assert m[k].0 == r || forall i :: 0 <= i < |m| && m[i].0 == r ==> m[..k][i].0 == r;
      }
      forall c ensures c in ColsOf(m) <==> exists i :: 0 <= i < |m| && m[i].1 == c {
        assert m[k].1 == c || forall i :: 0 <= i < |m| && m[i].1 == c ==> m[..k][i].1 == c;
      }
    }
  }

  /**
    What the solver promises about its result: the matches are gated, and they and the unmatched
    lists split the rows and the columns.
   */
  ghost predicate Partitions(p: Problem, result: AssignmentResult)
    requires p.Valid()
  {
    && p.IsGatedMatching(result.matches)
    && result.unmatchedRows == Missing(RowsOf(result.matches), p.rows)
    && result.unmatchedCols == Missing(ColsOf(result.matches), p.cols)
  }

  lemma {:induction false} MatchedCount(m: seq<Pair>)
    requires forall i, j :: 0 <= i < j < |m| ==> m[i].0 != m[j].0 && m[i].1 != m[j].1
    ensures |RowsOf(m)| == |m| == |ColsOf(m)|
  {
    if |m| > 0 {
      var k := |m| - 1;
      MatchedCount(m[..k]);
      EndsOf(m[..k]);
    }
  }

  /** A row is either in exactly one match or in the list of unmatched rows, and so for columns; the counts add up. */
  lemma PartitionsRowsAndCols(p: Problem, result: AssignmentResult)
    requires p.Valid() && Partitions(p, result)
    ensures forall r :: r in result.unmatchedRows <==>
      0 <= r < p.rows && forall i :: 0 <= i < |result.matches| ==> result.matches[i].0 != r
    ensures forall c :: c in result.unmatchedCols <==>
      0 <= c < p.cols && forall i :: 0 <= i < |result.matches| ==> result.matches[i].1 != c
    ensures |result.matches| + |result.unmatchedRows| == p.rows
    ensures |result.matches| + |result.unmatchedCols| == p.cols
  {
    var m := result.matches;
    MissingIsComplement(RowsOf(m), p.rows);
    MissingIsComplement(ColsOf(m), p.cols);
    EndsOf(m);
    assert forall i :: 0 <= i < |m| ==> p.InRange(m[i]);
    MissingCount(RowsOf(m), p.rows);
    MissingCount(ColsOf(m), p.cols);
    MatchedCount(m);
  }

  lemma PairNeedsRoom(p: Problem, m: seq<Pair>)
    requires p.Valid() && p.IsGatedMatching(m) && |m| > 0
    ensures p.rows > 0 && p.cols > 0
  {
    assert p.InRange(m[0]);
  }

  /** With no rows or no columns there is nothing to match. */
  lemma NothingToMatch(p: Problem)
    requires p.Valid() && (p.rows == 0 || p.cols == 0)
    ensures p.Optimal([])
  {
    forall m | p.IsGatedMatching(m) ensures m == [] {
      if |m| > 0 {
        PairNeedsRoom(p, m);
      }
    }
  }

  /** 1 + 2 + ... + n */
  function UpTo(n: nat): nat {
    if n == 0 then 0 else UpTo(n - 1) + n
  }

  lemma {:induction false} UpToIsTriangular(n: nat)
    ensures 2 * UpTo(n) == n * (n + 1)
  {
    if n > 0 {
      UpToIsTriangular(n - 1);
    }
  }

  class LinearAssignment {
    var matrix: array2<real>
    var u: array<real>
    var v: array<real>
    var minSlack: array<Slack>
    var assignedRow: array<int>
    var way: array<int>
    var used: array<bool>

    constructor () {
      matrix := new real[0, 0];
      u := new real[0];
      v := new real[0];
      minSlack := new Slack[0];
      assignedRow := new int[0];
      way := new int[0];
      used := new bool[0];
    }

    /** The buffers fit a problem of size n and do not overlap. */
    ghost predicate Sized(n: nat)
      reads this
    {
      && matrix.Length0 == matrix.Length1 == n + 1
      && u.Length == v.Length == minSlack.Length == assignedRow.Length == way.Length == used.Length == n + 1
      && u != v && assignedRow != way
    }

    /** The matrix buffer, counted from 1, holds `a`. */
    ghost predicate Holds(a: Matrix, n: nat)
      reads this, matrix
    {
      && Square(a, n) && matrix.Length0 == matrix.Length1 == n + 1
      && forall r, c :: 1 <= r <= n && 1 <= c <= n ==> matrix[r, c] == At(a, r, c)
    }

    ghost predicate UsedAre(n: nat, s: set<int>)
      reads this, used
    {
      used.Length == n + 1 && forall j :: 0 <= j <= n ==> (used[j] <==> j in s)
    }

    /** The column scan: offer the row in column j0 to every unused column, and find the nearest. */
    method Scan(ghost a: Matrix, n: nat, j0: int, ghost s: set<int>) returns (delta: Slack, j1: int)
      requires Sized(n) && Holds(a, n) && UsedAre(n, s)
      requires 0 <= j0 <= n && 1 <= assignedRow[j0] <= n
      modifies minSlack, way
      ensures Relaxed(a, n, assignedRow[j0], j0, u[..], v[..], s,
        old(way[..]), old(minSlack[..]), way[..], minSlack[..])
      ensures Nearest(n, s, minSlack[..], delta, j1) && way[0] == old(way[0])
      ensures forall j :: 1 <= j <= n && j !in s ==> minSlack[j].Finite? && delta.Finite?
    {
      hide At;
      var i0 := assignedRow[j0];
      delta, j1 := Infinite, 0;
      var j := 1;
      while j <= n
        invariant 1 <= j <= n + 1
        invariant forall k :: j <= k <= n ==> minSlack[k] == old(minSlack[k]) && way[k] == old(way[k])
        invariant way[0] == old(way[0])
        invariant forall k :: 1 <= k < j ==>
          var reduced := At(a, i0, k) - u[i0] - v[k];
          if k !in s && (old(minSlack[k]).Infinite? || reduced < old(minSlack[k]).value)
          then minSlack[k] == Finite(reduced) && way[k] == j0
          else minSlack[k] == old(minSlack[k]) && way[k] == old(way[k])
        invariant forall k :: 1 <= k < j && k !in s ==>
          minSlack[k].Finite? && delta.Finite? && minSlack[k].value >= delta.value
        invariant delta.Finite? ==> 1 <= j1 < j && j1 !in s && minSlack[j1] == delta
      {
        if !used[j] {
          var reduced := matrix[i0, j] - u[i0] - v[j];
          if minSlack[j].Infinite? || reduced < minSlack[j].value {
            minSlack[j] := Finite(reduced);
            way[j] := j0;
          }
          if delta.Infinite? || minSlack[j].value < delta.value {
            delta := minSlack[j];
            j1 := j;
          }
        }
        j := j + 1;
      }
    }

    /** Move the tree by `d`: its rows go up, its columns down, and all other slacks shrink. */
    method Shift(n: nat, d: real, ghost i: nat, ghost col: seq<int>, ghost s: set<int>)
      requires Sized(n) && UsedAre(n, s) && i <= n
      requires Placed(n, i, assignedRow[..], col, -1)
      requires forall j :: 0 <= j <= n && j in s ==> assignedRow[j] != 0
      requires forall j :: 1 <= j <= n && j !in s ==> minSlack[j].Finite?
      requires 0 in s
      modifies u, v, minSlack
      ensures Shifted(n, i, d, s, col, old(u[..]), old(v[..]), old(minSlack[..]), u[..], v[..], minSlack[..])
    {
      var j := 0;
      while j <= n
        invariant 0 <= j <= n + 1
        invariant forall r :: 1 <= r <= i ==>
          u[r] == if col[r] in s && col[r] < j then old(u[r]) + d else old(u[r])
        invariant forall k :: 0 <= k <= n ==> v[k] == if k in s && k < j then old(v[k]) - d else old(v[k])
        invariant forall k :: 1 <= k <= n ==>
          minSlack[k] == if k !in s && k < j then Finite(old(minSlack[k]).value - d) else old(minSlack[k])
      {
        if used[j] {
          assert assignedRow[..][j] != 0 && col[assignedRow[j]] == j;
          u[assignedRow[j]] := u[assignedRow[j]] + d;
          v[j] := v[j] - d;
        } else {
          minSlack[j] := Finite(minSlack[j].value - d);
        }
        j := j + 1;
      }
    }

    /** Walk back along `way` from the free column, passing each row on to the next column. */
    method Augment(ghost a: Matrix, n: nat, ghost i: nat, free: int, ghost search: Search)
      returns (ghost col': seq<int>)
      requires Sized(n) && Searching(a, n, i, search) && search.p[search.j0] == 0 && free == search.j0
      requires u[..] == search.u && v[..] == search.v && assignedRow[..] == search.p && way[..] == search.way
      modifies assignedRow
      ensures PhaseDone(a, n, i, u[..], v[..], assignedRow[..], col')
    {
      hide Searching, Walking, PhaseDone, Feasible;
      ghost var p0, tree := search.p, search.tree;
      var j0 := free;
      ghost var m := WalkStarts(a, n, i, search);
      col' := search.col;
      while j0 != 0
        invariant u[..] == search.u && v[..] == search.v && way[..] == search.way
        invariant Walking(a, n, i, u[..], v[..], p0, way[..], tree, assignedRow[..], col', j0, m)
        invariant 0 <= j0 <= n && m >= -1 && (j0 != 0 ==> m >= 0)
        decreases m + 1
      {
        var j1 := way[j0];
        ghost var before := assignedRow[..];
        ghost var m' := WalkStep(a, n, i, u[..], v[..], p0, way[..], tree, before, col', j0, m);
        col' := col'[before[j1] := j0];
        assignedRow[j0] := assignedRow[j1];
        assert assignedRow[..] == before[j0 := before[j1]];
        j0, m := j1, m';
      }
      WalkEnds(a, n, i, u[..], v[..], p0, way[..], tree, assignedRow[..], col', m);
    }

    /** The state of the search, as the buffers hold it. */
    ghost predicate Mirrors(n: nat, search: Search)
      reads this, u, v, minSlack, assignedRow, way, used
    {
      && u[..] == search.u && v[..] == search.v && minSlack[..] == search.slack
      && assignedRow[..] == search.p && way[..] == search.way
      && UsedAre(n, Elements(search.tree.order))
    }

    /** The body of the search loop: scan from column j0, move the tree by the least slack found. */
    method ScanAndShift(ghost a: Matrix, n: nat, ghost i: nat, j0: int, ghost col: seq<int>, ghost s: set<int>)
      returns (d: real, j1: int, ghost slack1: seq<Slack>)
      requires Sized(n) && Holds(a, n) && UsedAre(n, s) && 1 <= i <= n
      requires 0 <= j0 <= n && 1 <= assignedRow[j0] <= n && 0 in s
      requires Placed(n, i, assignedRow[..], col, -1) && assignedRow[0] == i
      requires forall j :: 0 <= j <= n && j in s ==> assignedRow[j] != 0
      modifies u, v, minSlack, way
      ensures Relaxed(a, n, assignedRow[j0], j0, old(u[..]), old(v[..]), s,
        old(way[..]), old(minSlack[..]), way[..], slack1)
      ensures Nearest(n, s, slack1, Finite(d), j1) && way[0] == old(way[0])
      ensures Shifted(n, i, d, s, col, old(u[..]), old(v[..]), slack1, u[..], v[..], minSlack[..])
    {
      FreeColumn(n, i, assignedRow[..], col);
      var delta;
      delta, j1 := Scan(a, n, j0, s);
      slack1 := minSlack[..];
      d := delta.value;
      Shift(n, d, i, col, s);
    }

    /** One round of the search, from column j0 to the next column. */
    method Advance(ghost a: Matrix, n: nat, ghost i: nat, j0: int, ghost search: Search)
      returns (j1: int, ghost search': Search)
      requires Sized(n) && Holds(a, n) && Searching(a, n, i, search) && Mirrors(n, search)
      requires j0 == search.j0 && 1 <= search.p[j0] <= n
      modifies u, v, minSlack, way, used
      ensures Searching(a, n, i, search') && Mirrors(n, search')
      ensures search'.p == search.p && search'.tree.order == search.tree.order + [j0] && search'.j0 == j1
    {
      hide Searching, Relaxed, Nearest, Shifted, Grown;
      ghost var tree := GrowTree(a, n, i, search);
      ghost var s := Elements(tree.order);
      used[j0] := true;
      assert UsedAre(n, s);
      var d;
      ghost var slack1;
      d, j1, slack1 := ScanAndShift(a, n, i, j0, search.col, s);
      search' := Search(u[..], v[..], search.p, search.col, way[..], minSlack[..], tree, j1);
      SearchRound(a, n, i, search, slack1, d, search');
    }

    /** Phase i: bring in row i by a shortest augmenting path, scanning at most i columns. */
    method Phase(ghost a: Matrix, n: nat, i: nat, ghost col: seq<int>)
      returns (ghost col': seq<int>, ghost scans: nat)
      requires Sized(n) && Holds(a, n) && 1 <= i <= n
      requires PhaseDone(a, n, i - 1, u[..], v[..], assignedRow[..], col)
      modifies this`minSlack, this`used, u, v, assignedRow, way
      ensures Sized(n) && Holds(a, n)
      ensures PhaseDone(a, n, i, u[..], v[..], assignedRow[..], col')
      ensures 1 <= scans <= i
    {
      hide Searching, PhaseDone, Walking;
      ghost var before := assignedRow[..];
      assignedRow[0] := i;
      var j0 := 0;
      minSlack := new Slack[n + 1](_ => Infinite);
      used := new bool[n + 1](_ => false);
      assert assignedRow[..] == before[0 := i];
      ghost var search := SearchStarts(a, n, i, u[..], v[..], before, col, way[..], minSlack[..]);
      SearchBounds(a, n, i, search);
      scans := 0;
      while true
        invariant Sized(n) && Holds(a, n) && fresh(minSlack) && fresh(used)
        invariant Searching(a, n, i, search) && Mirrors(n, search)
        invariant |search.p| == n + 1 && j0 == search.j0 && 0 <= j0 <= n && 1 <= search.p[j0] <= n
        invariant scans == |search.tree.order| <= i
        decreases i - scans
      {
        j0, search := Advance(a, n, i, j0, search);
        scans := scans + 1;
        SearchBounds(a, n, i, search);
        if assignedRow[j0] == 0 {
          break;
        }
      }
      col' := Augment(a, n, i, j0, search);
    }

    /** Fresh buffers, with nothing assigned and all potentials zero. */
    method Reset(ghost a: Matrix, n: nat) returns (ghost col: seq<int>)
      requires Holds(a, n)
      modifies this
      ensures Sized(n) && Holds(a, n) && matrix == old(matrix)
      ensures fresh(u) && fresh(v) && fresh(assignedRow) && fresh(way)
      ensures PhaseDone(a, n, 0, u[..], v[..], assignedRow[..], col)
    {
      hide PhaseDone, At;
      u := new real[n + 1](_ => 0.0);
      v := new real[n + 1](_ => 0.0);
      assignedRow := new int[n + 1](_ => 0);
      way := new int[n + 1](_ => 0);
      minSlack := new Slack[n + 1](_ => Infinite);
      used := new bool[n + 1](_ => false);
      col := seq(n + 1, _ => 0);
      assert u[..] == seq(n + 1, _ => 0.0) && v[..] == seq(n + 1, _ => 0.0) && assignedRow[..] == col;
      NothingPlaced(a, n);
    }

    /** All phases: a cheapest permutation of `a`, in at most n(n + 1)/2 column scans. */
    method Minimise(ghost a: Matrix, n: nat) returns (ghost scans: nat)
      requires Holds(a, n)
      modifies this
      ensures Holds(a, n) && assignedRow.Length == n + 1 && fresh(assignedRow) && matrix == old(matrix)
      ensures Permutation(n, Rows(n, assignedRow[..]))
      ensures forall t :: Permutation(n, t) ==> Sum(Picked(a, n, Rows(n, assignedRow[..]))) <= Sum(Picked(a, n, t))
      ensures 2 * scans <= n * (n + 1)
    {
      hide PhaseDone, Permutation, At, Picked;
      ghost var col := Reset(a, n);
      scans := 0;
      var i := 1;
      while i <= n
        invariant 1 <= i <= n + 1
        invariant Sized(n) && Holds(a, n) && matrix == old(matrix)
        invariant fresh(u) && fresh(v) && fresh(assignedRow) && fresh(way)
        invariant PhaseDone(a, n, i - 1, u[..], v[..], assignedRow[..], col)
        invariant scans <= UpTo(i - 1)
      {
        ghost var more;
        col, more := Phase(a, n, i, col);
        scans := scans + more;
        i := i + 1;
      }
      LastPhaseIsOptimal(a, n, u[..], v[..], assignedRow[..], col);
      UpToIsTriangular(n);
    }

    /** Fill the buffer with the extended matrix of the problem. */
    method Fill(cost: seq<real>, rows: nat, cols: nat, costLimit: real, ghost p: Problem)
      requires rows * cols <= |cost| && p == Problem(rows, cols, FromRowMajor(cost, rows, cols), costLimit)
      modifies this`matrix
      ensures fresh(matrix) && Holds(ExtendedMatrix(p), rows + cols)
    {
      var n, halfLimit := rows + cols, 0.5 * costLimit;
      matrix := new real[n + 1, n + 1]((_, _) => 0.0);
      var r := 0;
      while r < n
        invariant 0 <= r <= n
        invariant fresh(matrix) && matrix.Length0 == matrix.Length1 == n + 1
        invariant forall x, c :: 0 <= x < r && 0 <= c < n ==> matrix[x + 1, c + 1] == p.Extended(x, c)
      {
        var c := 0;
        while c < n
          invariant 0 <= c <= n
          invariant fresh(matrix) && matrix.Length0 == matrix.Length1 == n + 1
          invariant forall x, y :: 0 <= x < r && 0 <= y < n ==> matrix[x + 1, y + 1] == p.Extended(x, y)
          invariant forall y :: 0 <= y < c ==> matrix[r + 1, y + 1] == p.Extended(r, y)
        {
          var value := 0.0;
          if r < rows && c < cols {
            RowMajorIndex(rows, cols, r, c);
            var cst := cost[r * cols + c];
            value := if cst <= costLimit then cst else FORBIDDEN;
          } else if r < rows {
            value := if c - cols == r then halfLimit else FORBIDDEN;
          } else if c < cols {
            value := if r - rows == c then halfLimit else FORBIDDEN;
          }
          assert r < rows && c < cols ==> p.Cost(r, c) == cost[r * cols + c];
          assert value == p.Extended(r, c);
          matrix[r + 1, c + 1] := value;
          c := c + 1;
        }
        r := r + 1;
      }
    }

    /** Read the real pairs back; anything assigned to a dummy is unmatched. */
    method Collect(rows: nat, cols: nat, ghost p: Problem, ghost s: seq<int>) returns (result: AssignmentResult)
      requires p.Valid() && p.rows == rows && p.cols == cols && Holds(ExtendedMatrix(p), rows + cols)
      requires assignedRow.Length == rows + cols + 1 && Permutation(rows + cols, s)
      requires s == Rows(rows + cols, assignedRow[..])
      modifies this`used
      ensures Partitions(p, result) && result.matches == p.ReadBack(s, cols)
    {
      hide Problem.Cost, Problem.IsGatedMatching, Distinct;
      used := new bool[rows](_ => false);
      var matches, unmatchedRows, unmatchedCols := [], [], [];
      var c := 0;
      while c < cols
        invariant 0 <= c <= cols
        invariant fresh(used) && used.Length == rows
        invariant matches == p.ReadBack(s, c) && unmatchedCols == Missing(ColsOf(matches), c)
        invariant forall r :: 0 <= r < rows ==> (used[r] <==> r in RowsOf(matches))
        invariant forall i :: 0 <= i < |matches| ==> matches[i].1 < c
      {
        var r := assignedRow[c + 1] - 1;
        assert r == s[c];
        assert matrix[r + 1, c + 1] == p.Extended(r, c);
        ghost var before := matches;
        EndsOf(before);
        if r >= 0 && r < rows && matrix[r + 1, c + 1] < FORBIDDEN {
          matches := matches + [(r, c)];
          used[r] := true;
          assert matches[..|before|] == before;
          MissingIgnores(ColsOf(before), c, c);
        } else {
          unmatchedCols := unmatchedCols + [c];
        }
        c := c + 1;
      }
      var r := 0;
      while r < rows
        invariant 0 <= r <= rows
        invariant unmatchedRows == Missing(RowsOf(matches), r)
      {
        if !used[r] {
          unmatchedRows := unmatchedRows + [r];
        }
        r := r + 1;
      }
      ReadBackIsGated(p, s, cols);
      result := AssignmentResult(matches, unmatchedRows, unmatchedCols);
    }

    /**
      Solve the gated problem. The result splits rows and columns; it is read back from a cheapest
      permutation of the extended matrix, so for every limit up to `FORBIDDEN` no gated matching
      is cheaper.
     */
    method Solve(cost: seq<real>, rows: int, cols: int, costLimit: real) returns (outcome: Outcome)
      modifies this
      ensures outcome.SizeMismatch? <==> rows < 0 || cols < 0 || |cost| < rows * cols
      ensures outcome.Solved? ==>
        var p := Problem(rows, cols, FromRowMajor(cost, rows, cols), costLimit);
        && Partitions(p, outcome.result)
        && (costLimit <= FORBIDDEN ==> p.Optimal(outcome.result.matches))
        && (rows > 0 && cols > 0 ==> exists s :: p.Cheapest(s) && outcome.result.matches == p.ReadBack(s, cols))
    {
      if rows < 0 || cols < 0 || |cost| < rows * cols {
        return SizeMismatch;
      }
      ghost var p := Problem(rows, cols, FromRowMajor(cost, rows, cols), costLimit);
      if rows == 0 || cols == 0 {
        var unmatchedRows, unmatchedCols := [], [];
        var r := 0;
        while r < rows
          invariant 0 <= r <= rows && unmatchedRows == Missing({}, r)
        {
          unmatchedRows := unmatchedRows + [r];
          r := r + 1;
        }
        var c := 0;
        while c < cols
          invariant 0 <= c <= cols && unmatchedCols == Missing({}, c)
        {
          unmatchedCols := unmatchedCols + [c];
          c := c + 1;
        }
        NothingToMatch(p);
        assert RowsOf([]) == {} && ColsOf([]) == {};
        return Solved(AssignmentResult([], unmatchedRows, unmatchedCols));
      }
      var n := rows + cols;
      Fill(cost, rows, cols, costLimit, p);
      ghost var a := ExtendedMatrix(p);
      ghost var scans := Minimise(a, n);
      ghost var s := Rows(n, assignedRow[..]);
      PickedAreEntries(p, s);
      var result := Collect(rows, cols, p, s);
      if costLimit <= FORBIDDEN {
        CheapestIsOptimal(p, s);
      }
      outcome := Solved(result);
    }
  }

  lemma PickedAreEntries(p: Problem, s: seq<int>)
    requires p.Valid() && Permutation(p.Size(), s)
    requires forall t :: Permutation(p.Size(), t) ==>
      Sum(Picked(ExtendedMatrix(p), p.Size(), s)) <= Sum(Picked(ExtendedMatrix(p), p.Size(), t))
    ensures p.Cheapest(s)
  {
    forall t | Permutation(p.Size(), t)
      ensures Picked(ExtendedMatrix(p), p.Size(), t) == p.Entries(t)
    {
    }
  }
}
