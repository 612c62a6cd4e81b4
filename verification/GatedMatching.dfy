/**
  Assignment under a cost gate: pair some rows with some columns, using only pairs that cost at
  most `limit`, and pay half the limit for every row and every column left alone.

  The solver answers by way of a square matrix over rows + cols rows and columns, in which a
  row may take its own dummy column and a column its own dummy row. This module says what that
  matrix is, turns gated matchings into permutations of it (`Lift`) and permutations back into
  gated matchings (`ReadBack`), and proves for which limits nothing is lost on the way.
 */
module GatedMatching {
  import opened Sums

  /** The entry that stands for "not allowed". */
  const FORBIDDEN := 1000000000.0

  type Pair = (int, int)

  /** A rows x cols cost matrix with the gate. */
  datatype Problem = Problem(rows: nat, cols: nat, cost: seq<seq<real>>, limit: real) {
    ghost predicate Valid() {
      |cost| == rows && forall r :: 0 <= r < rows ==> |cost[r]| == cols
    }

    function Size(): nat {
      rows + cols
    }

    predicate InRange(m: Pair) {
      0 <= m.0 < rows && 0 <= m.1 < cols
    }

    function Cost(r: int, c: int): real
      requires Valid() && 0 <= r < rows && 0 <= c < cols
    {
      cost[r][c]
    }

    /** The square matrix the solver works on, counted from 0. */
    function Extended(r: int, c: int): real
      requires Valid() && 0 <= r < Size() && 0 <= c < Size()
    {
      if r < rows && c < cols then
        if Cost(r, c) <= limit then Cost(r, c) else FORBIDDEN
      else if r < rows then
        if c - cols == r then limit / 2.0 else FORBIDDEN
      else if c < cols then
        if r - rows == c then limit / 2.0 else FORBIDDEN
      else
        0.0
    }

    /** What column c pays when row s[c] is assigned to it. */
    function Entries(s: seq<int>): (e: seq<real>)
      requires Valid() && |s| == Size() && forall i :: 0 <= i < |s| ==> 0 <= s[i] < Size()
    {
      seq(Size(), c requires 0 <= c < Size() => Extended(s[c], c))
    }

    /** Pairs within the gate, with no row and no column twice. */
    ghost predicate IsGatedMatching(m: seq<Pair>)
      requires Valid()
    {
      && (forall i :: 0 <= i < |m| ==> InRange(m[i]) && Cost(m[i].0, m[i].1) <= limit)
      && (forall i, j :: 0 <= i < j < |m| ==> m[i].0 != m[j].0 && m[i].1 != m[j].1)
    }

    ghost function PairSum(m: seq<Pair>): real
      requires Valid() && forall i :: 0 <= i < |m| ==> InRange(m[i])
    {
      if |m| == 0 then 0.0
      else
        var last := m[|m| - 1];
        assert InRange(last);
        PairSum(m[..|m| - 1]) + Cost(last.0, last.1)
    }

    /** The cost of a matching: its pairs, and half the limit for each end left unmatched. */
    ghost function MatchingCost(m: seq<Pair>): real
      requires Valid() && forall i :: 0 <= i < |m| ==> InRange(m[i])
    {
      PairSum(m) + Times(rows + cols - 2 * |m|, limit / 2.0)
    }

    /** The gated matching that a permutation of the extended matrix is read back as, over columns below k. */
    ghost function ReadBack(s: seq<int>, k: nat): (m: seq<Pair>)
      requires Valid() && k <= cols && Permutation(Size(), s)
    {
      if k == 0 then []
      else if s[k - 1] < rows && Extended(s[k - 1], k - 1) < FORBIDDEN then
        ReadBack(s, k - 1) + [(s[k - 1], k - 1)]
      else
        ReadBack(s, k - 1)
    }

    /** `s` is a cheapest permutation of the extended matrix. */
    ghost predicate Cheapest(s: seq<int>)
      requires Valid()
    {
      Permutation(Size(), s) &&
      forall t :: Permutation(Size(), t) ==> Sum(Entries(s)) <= Sum(Entries(t))
    }

    /** No gated matching is cheaper than `m`. */
    ghost predicate Optimal(m: seq<Pair>)
      requires Valid()
    {
      IsGatedMatching(m) &&
      forall other :: IsGatedMatching(other) ==> MatchingCost(m) <= MatchingCost(other)
    }
  }

  /** The last pair costs its price less the limit, which its two ends no longer pay. */
  lemma CostOfLastPair(p: Problem, m: seq<Pair>)
    requires p.Valid() && p.IsGatedMatching(m) && |m| > 0
    ensures p.IsGatedMatching(m[..|m| - 1]) && p.InRange(m[|m| - 1])
    ensures p.MatchingCost(m) == p.MatchingCost(m[..|m| - 1]) + p.Cost(m[|m| - 1].0, m[|m| - 1].1) - p.limit
  {
    TimesAdd(p.rows + p.cols - 2 * |m|, 2, p.limit / 2.0);
  }

  // ---------- lifting a gated matching to a permutation ----------

  /** Start from "everybody takes their own dummy" and swap the dummies of each pair away. */
  ghost function Lift(p: Problem, m: seq<Pair>): (s: seq<int>)
    requires p.Valid() && p.IsGatedMatching(m)
    ensures |s| == p.Size()
    decreases |m|
  {
    if |m| == 0 then
      seq(p.Size(), c requires 0 <= c < p.Size() => if c < p.cols then p.rows + c else c - p.cols)
    else
      var (r, c) := m[|m| - 1];
      Lift(p, m[..|m| - 1])[c := r][p.cols + r := p.rows + c]
  }

  ghost predicate RowFree(m: seq<Pair>, r: int) {
    forall i :: 0 <= i < |m| ==> m[i].0 != r
  }

  ghost predicate ColFree(m: seq<Pair>, c: int) {
    forall i :: 0 <= i < |m| ==> m[i].1 != c
  }

  /** An optimal matching leaves no row and column alone that could be paired for less than the limit. */
  lemma NothingInReachIsLeft(p: Problem, m: seq<Pair>, r: int, c: int)
    requires p.Valid() && p.Optimal(m) && p.InRange((r, c)) && RowFree(m, r) && ColFree(m, c)
    ensures p.Cost(r, c) >= p.limit
  {
    if p.Cost(r, c) < p.limit {
      var n := m + [(r, c)];
      assert n[..|n| - 1] == m && p.IsGatedMatching(n);
      CostOfLastPair(p, n);
    }
  }

  /** A lifted matching is a permutation, and whoever is unmatched still has their own dummy. */
  lemma {:induction false} LiftIsPermutation(p: Problem, m: seq<Pair>)
    requires p.Valid() && p.IsGatedMatching(m)
    ensures Permutation(p.Size(), Lift(p, m))
    ensures forall r :: 0 <= r < p.rows && RowFree(m, r) ==> Lift(p, m)[p.cols + r] == r
    ensures forall c :: 0 <= c < p.cols && ColFree(m, c) ==> Lift(p, m)[c] == p.rows + c
  {
    if |m| > 0 {
      var k := |m| - 1;
      var rest := m[..k];
      var (r, c) := m[k];
      LiftIsPermutation(p, rest);
      assert RowFree(rest, r) && ColFree(rest, c);
      var s, t := Lift(p, rest), Lift(p, m);
      assert s[c] == p.rows + c && s[p.cols + r] == r;
      assert t == s[c := s[p.cols + r]][p.cols + r := s[c]];
      forall x | 0 <= x < p.rows && RowFree(m, x) ensures t[p.cols + x] == x {
        assert m[k].0 != x && RowFree(rest, x);
      }
      forall x | 0 <= x < p.cols && ColFree(m, x) ensures t[x] == p.rows + x {
        assert m[k].1 != x && ColFree(rest, x);
      }
    }
  }

  /** Pairing row r with column c in s turns two dummies at half the limit into the pair and a free dummy. */
  lemma SwapCost(p: Problem, s: seq<int>, r: int, c: int)
    requires p.Valid() && Permutation(p.Size(), s) && p.InRange((r, c)) && p.Cost(r, c) <= p.limit
    requires s[c] == p.rows + c && s[p.cols + r] == r
    requires Permutation(p.Size(), s[c := r][p.cols + r := p.rows + c])
    ensures Sum(p.Entries(s[c := r][p.cols + r := p.rows + c])) == Sum(p.Entries(s)) + p.Cost(r, c) - p.limit
  {
    var t, d := s[c := r][p.cols + r := p.rows + c], p.cols + r;
    var e := p.Entries(s);
    assert e[c] == p.limit / 2.0 && e[d] == p.limit / 2.0;
    assert p.Entries(t) == e[c := p.Cost(r, c)][d := 0.0] by {
      hide Distinct;
      assert p.Extended(r, c) == p.Cost(r, c) && p.Extended(p.rows + c, d) == 0.0;
    }
    SumUpdate(e, c, p.Cost(r, c));
    SumUpdate(e[c := p.Cost(r, c)], d, 0.0);
  }

  /** Lifting one pair more is a swap with two unused dummies. */
  lemma LiftOneMore(p: Problem, m: seq<Pair>)
    requires p.Valid() && p.IsGatedMatching(m) && |m| > 0
    ensures var rest, x := m[..|m| - 1], m[|m| - 1]; var s, d := Lift(p, rest), p.cols + x.0;
      && p.IsGatedMatching(rest) && p.InRange(x) && p.Cost(x.0, x.1) <= p.limit
      && Permutation(p.Size(), s) && s[x.1] == p.rows + x.1 && s[d] == x.0
      && Permutation(p.Size(), s[x.1 := x.0][d := p.rows + x.1])
      && Lift(p, m) == s[x.1 := x.0][d := p.rows + x.1]
  {
    var rest, x := m[..|m| - 1], m[|m| - 1];
    LiftIsPermutation(p, rest);
    LiftIsPermutation(p, m);
    assert RowFree(rest, x.0) && ColFree(rest, x.1) && p.InRange(x);
  }

  lemma LiftCostStep(p: Problem, m: seq<Pair>)
    requires p.Valid() && p.IsGatedMatching(m) && |m| > 0
    requires p.IsGatedMatching(m[..|m| - 1])
    requires Permutation(p.Size(), Lift(p, m[..|m| - 1]))
    requires Sum(p.Entries(Lift(p, m[..|m| - 1]))) == p.MatchingCost(m[..|m| - 1])
    ensures Permutation(p.Size(), Lift(p, m))
    ensures Sum(p.Entries(Lift(p, m))) == p.MatchingCost(m)
  {
    hide Distinct, Problem.Extended, Problem.MatchingCost, Problem.IsGatedMatching, Sum, Lift;
    var rest, x := m[..|m| - 1], m[|m| - 1];
    LiftOneMore(p, m);
    SwapCost(p, Lift(p, rest), x.0, x.1);
    CostOfLastPair(p, m);
  }

  /** Lifting keeps the cost. */
  lemma {:induction false} LiftCost(p: Problem, m: seq<Pair>)
    requires p.Valid() && p.IsGatedMatching(m)
    ensures Permutation(p.Size(), Lift(p, m))
    ensures Sum(p.Entries(Lift(p, m))) == p.MatchingCost(m)
  {
    if |m| == 0 {
      LiftIsPermutation(p, m);
      SumConstantPrefix(p.Entries(Lift(p, m)), p.Size(), p.limit / 2.0);
    } else {
      assert p.IsGatedMatching(m[..|m| - 1]);
      LiftCost(p, m[..|m| - 1]);
      LiftCostStep(p, m);
    }
  }

  // ---------- reading a permutation back ----------

  /** What is read back is a gated matching in which every cost is below `FORBIDDEN`. */
  lemma {:induction false} ReadBackIsGated(p: Problem, s: seq<int>, k: nat)
    requires p.Valid() && k <= p.cols && Permutation(p.Size(), s)
    ensures p.IsGatedMatching(p.ReadBack(s, k))
    ensures forall i :: 0 <= i < |p.ReadBack(s, k)| ==>
      var m := p.ReadBack(s, k)[i]; m.1 < k && s[m.1] == m.0 && p.Cost(m.0, m.1) < FORBIDDEN
  {
    if k > 0 {
      ReadBackIsGated(p, s, k - 1);
    }
  }

  /** What column c saves, against leaving both ends of its pair alone, if its pair is read back. */
  ghost function Savings(p: Problem, s: seq<int>, k: nat): (g: seq<real>)
    requires p.Valid() && k <= p.cols && Permutation(p.Size(), s)
  {
    seq(k, c requires 0 <= c < k =>
      if s[c] < p.rows && p.Extended(s[c], c) < FORBIDDEN then p.Extended(s[c], c) - p.limit else 0.0)
  }

  lemma CostOfNothing(p: Problem)
    requires p.Valid()
    ensures p.MatchingCost([]) == Times(p.Size(), p.limit / 2.0)
  {
    assert p.PairSum([]) == 0.0;
  }

  lemma {:induction false} ReadBackCost(p: Problem, s: seq<int>, k: nat)
    requires p.Valid() && k <= p.cols && Permutation(p.Size(), s)
    ensures p.IsGatedMatching(p.ReadBack(s, k))
    ensures p.MatchingCost(p.ReadBack(s, k)) == Times(p.Size(), p.limit / 2.0) + Sum(Savings(p, s, k))
  {
    hide Problem.MatchingCost, Problem.PairSum, Problem.IsGatedMatching, Times;
    ReadBackIsGated(p, s, k);
    CostOfNothing(p);
    if k > 0 {
      ReadBackCost(p, s, k - 1);
      assert Savings(p, s, k)[..k - 1] == Savings(p, s, k - 1);
      var m, rest := p.ReadBack(s, k), p.ReadBack(s, k - 1);
      if m != rest {
        assert m[..|rest|] == rest;
        CostOfLastPair(p, m);
      }
    }
  }

  lemma {:induction false} SumPadded(xs: seq<real>, n: nat)
    ensures Sum(xs + seq(n, _ => 0.0)) == Sum(xs)
  {
    var ys := xs + seq(n, _ => 0.0);
    if n == 0 {
      assert ys == xs;
    } else {
      assert ys[..|ys| - 1] == xs + seq(n - 1, _ => 0.0);
      SumPadded(xs, n - 1);
    }
  }

  /** Half the limit for every real row of `s` and every real column. */
  ghost function Shares(p: Problem, s: seq<int>): (h: seq<real>)
    requires Permutation(p.Size(), s)
  {
    seq(p.Size(), c requires 0 <= c < p.Size() =>
      (if c < p.cols then p.limit / 2.0 else 0.0) + if s[c] < p.rows then p.limit / 2.0 else 0.0)
  }

  lemma SharesSum(p: Problem, s: seq<int>)
    requires Permutation(p.Size(), s)
    ensures Sum(Shares(p, s)) == Times(p.Size(), p.limit / 2.0)
  {
    var n, half := p.Size(), p.limit / 2.0;
    var onCols := seq(n, c requires 0 <= c < n => if c < p.cols then half else 0.0);
    var onRows := seq(n, r requires 0 <= r < n => if r < p.rows then half else 0.0);
    SumConstantPrefix(onCols, p.cols, half);
    SumConstantPrefix(onRows, p.rows, half);
    SumReorder(onRows, s);
    SumAdd(onCols, Reorder(onRows, s), Shares(p, s));
    TimesAdd(p.rows, p.cols, half);
  }

  /** As long as the limit is at most `FORBIDDEN`, reading a permutation back makes nothing dearer. */
  lemma ReadBackIsNoDearer(p: Problem, s: seq<int>)
    requires p.Valid() && Permutation(p.Size(), s) && p.limit <= FORBIDDEN
    ensures p.IsGatedMatching(p.ReadBack(s, p.cols))
    ensures p.MatchingCost(p.ReadBack(s, p.cols)) <= Sum(p.Entries(s))
  {
    var n := p.Size();
    ReadBackCost(p, s, p.cols);
    var saved := Savings(p, s, p.cols) + seq(p.rows, _ => 0.0);
    SumPadded(Savings(p, s, p.cols), p.rows);
    var total := seq(n, c requires 0 <= c < n => Shares(p, s)[c] + saved[c]);
    SharesSum(p, s);
    SumAdd(Shares(p, s), saved, total);
    SumBelow(total, p.Entries(s));
  }

  /** A cheapest permutation is read back as an optimal gated matching, for every limit up to `FORBIDDEN`. */
  lemma CheapestIsOptimal(p: Problem, s: seq<int>)
    requires p.Valid() && p.Cheapest(s) && p.limit <= FORBIDDEN
    ensures p.Optimal(p.ReadBack(s, p.cols))
  {
    ReadBackIsNoDearer(p, s);
    forall other | p.IsGatedMatching(other)
      ensures p.MatchingCost(p.ReadBack(s, p.cols)) <= p.MatchingCost(other)
    {
      LiftCost(p, other);
    }
  }

  // ---------- beyond the limit ----------

  /** One pair costing exactly `FORBIDDEN`, inside the gate; every other pair is outside it. */
  ghost function OnePairProblem(rows: nat, cols: nat, limit: real): (p: Problem)
    ensures p.Valid() && p.rows == rows && p.cols == cols && p.limit == limit
  {
    Problem(rows, cols,
            seq(rows, r => seq(cols, c => if r == 0 && c == 0 then FORBIDDEN else limit + 1.0)),
            limit)
  }

  lemma {:induction false} OnePairReadsBackEmpty(rows: nat, cols: nat, limit: real, s: seq<int>, k: nat)
    requires limit > FORBIDDEN && Permutation(rows + cols, s) && k <= cols
    ensures OnePairProblem(rows, cols, limit).ReadBack(s, k) == []
  {
    if k > 0 {
      OnePairReadsBackEmpty(rows, cols, limit, s, k - 1);
      assert s[k - 1] < rows ==> OnePairProblem(rows, cols, limit).Extended(s[k - 1], k - 1) >= FORBIDDEN;
    }
  }

  /** A limit above `FORBIDDEN` defeats the solver: no permutation of that problem is read back as an optimum. */
  lemma BeyondTheLimit(rows: nat, cols: nat, limit: real, s: seq<int>)
    requires rows > 0 && cols > 0 && limit > FORBIDDEN
    requires Permutation(rows + cols, s)
    ensures var p := OnePairProblem(rows, cols, limit); !p.Optimal(p.ReadBack(s, cols))
  {
    var p, better := OnePairProblem(rows, cols, limit), [(0, 0)];
    OnePairReadsBackEmpty(rows, cols, limit, s, cols);
    assert better[..0] == [];
    assert p.PairSum(better) == FORBIDDEN;
    TimesAdd(rows + cols - 2, 2, limit / 2.0);
    assert p.MatchingCost(better) < p.MatchingCost([]);
  }

  /**
    The exact reach of the solver's promise. Over all cost matrices of a given non-empty shape, a
    cheapest permutation always reads back as an optimal gated matching if and only if the limit
    is at most `FORBIDDEN`; the sign and size of the costs do not matter.
   */
  lemma OptimalExactlyUpToTheLimit(rows: nat, cols: nat, limit: real)
    requires rows > 0 && cols > 0
    ensures limit <= FORBIDDEN ==>
      forall cost, s | Problem(rows, cols, cost, limit).Valid() && Problem(rows, cols, cost, limit).Cheapest(s) ::
        Problem(rows, cols, cost, limit).Optimal(Problem(rows, cols, cost, limit).ReadBack(s, cols))
    ensures limit > FORBIDDEN ==>
      exists cost | Problem(rows, cols, cost, limit).Valid() ::
        forall s | Permutation(rows + cols, s) ::
          !Problem(rows, cols, cost, limit).Optimal(Problem(rows, cols, cost, limit).ReadBack(s, cols))
  {
    if limit <= FORBIDDEN {
      forall cost, s | Problem(rows, cols, cost, limit).Valid() && Problem(rows, cols, cost, limit).Cheapest(s)
        ensures Problem(rows, cols, cost, limit).Optimal(Problem(rows, cols, cost, limit).ReadBack(s, cols))
      {
        CheapestIsOptimal(Problem(rows, cols, cost, limit), s);
      }
    } else {
      var p := OnePairProblem(rows, cols, limit);
      forall s | Permutation(rows + cols, s)
        ensures !Problem(rows, cols, p.cost, limit).Optimal(Problem(rows, cols, p.cost, limit).ReadBack(s, cols))
      {
        BeyondTheLimit(rows, cols, limit, s);
        assert p == Problem(rows, cols, p.cost, limit);
      }
    }
  }
}
