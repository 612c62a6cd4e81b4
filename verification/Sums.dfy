/** Finite sums over sequences of reals, permutations of `0..n`, and the pigeonhole principle. */
module Sums {

  function Sum(xs: seq<real>): real {
    if |xs| == 0 then 0.0 else Sum(xs[..|xs| - 1]) + xs[|xs| - 1]
  }

  ghost predicate Distinct<T(!new)>(s: seq<T>) {
    forall i, j :: 0 <= i < j < |s| ==> s[i] != s[j]
  }

  /** `s` lists every number of `0..n` exactly once. */
  ghost predicate Permutation(n: nat, s: seq<int>) {
    |s| == n && Distinct(s) && forall i :: 0 <= i < n ==> 0 <= s[i] < n
  }

  lemma {:induction false} SumUpdate(xs: seq<real>, i: nat, x: real)
    requires i < |xs|
    ensures Sum(xs[i := x]) == Sum(xs) - xs[i] + x
  {
    var n := |xs| - 1;
    if i < n {
      assert xs[i := x][..n] == xs[..n][i := x];
      SumUpdate(xs[..n], i, x);
    } else {
      assert xs[i := x][..n] == xs[..n];
    }
  }

  lemma {:induction false} SumRemove(xs: seq<real>, i: nat)
    requires i < |xs|
    ensures Sum(xs) == Sum(xs[..i] + xs[i + 1..]) + xs[i]
  {
    var n := |xs| - 1;
    if i < n {
      var ys := xs[..i] + xs[i + 1..];
      assert xs[..n][..i] == xs[..i] && xs[..n][i + 1..] == xs[i + 1..n];
      assert ys[..n - 1] == xs[..i] + xs[i + 1..n] && ys[n - 1] == xs[n];
      SumRemove(xs[..n], i);
    } else {
      assert xs[..i] + xs[i + 1..] == xs[..n];
    }
  }

  lemma {:induction false} SumBelow(xs: seq<real>, ys: seq<real>)
    requires |xs| == |ys|
    requires forall i :: 0 <= i < |xs| ==> xs[i] <= ys[i]
    ensures Sum(xs) <= Sum(ys)
  {
    if |xs| > 0 {
      SumBelow(xs[..|xs| - 1], ys[..|ys| - 1]);
    }
  }

  lemma {:induction false} SumAdd(xs: seq<real>, ys: seq<real>, zs: seq<real>)
    requires |xs| == |ys| == |zs|
    requires forall i :: 0 <= i < |xs| ==> zs[i] == xs[i] + ys[i]
    ensures Sum(zs) == Sum(xs) + Sum(ys)
  {
    if |xs| > 0 {
      SumAdd(xs[..|xs| - 1], ys[..|ys| - 1], zs[..|zs| - 1]);
    }
  }

  /** `n` times `x`, for an `n` of either sign. */
  function Times(n: int, x: real): (r: real)
    decreases if n < 0 then -n else n
  {
    if n == 0 then 0.0 else if n > 0 then Times(n - 1, x) + x else Times(n + 1, x) - x
  }

  /** `Times` is multiplication, in a form that stays linear for a given `x`. */
  lemma {:induction false} TimesIsProduct(n: int, x: real)
    ensures Times(n, x) == n as real * x
    decreases if n < 0 then -n else n
  {
    if n > 0 {
      TimesIsProduct(n - 1, x);
    } else if n < 0 {
      TimesIsProduct(n + 1, x);
    }
  }

  lemma {:induction false} SumConstantPrefix(xs: seq<real>, k: nat, x: real)
    requires k <= |xs|
    requires forall i :: 0 <= i < |xs| ==> xs[i] == if i < k then x else 0.0
    ensures Sum(xs) == Times(k, x)
  {
    var n := |xs| - 1;
    if n >= 0 {
      SumConstantPrefix(xs[..n], if k <= n then k else n, x);
    }
  }

  lemma {:induction false} TimesAdd(a: int, b: nat, x: real)
    ensures Times(a + b, x) == Times(a, x) + Times(b, x)
  {
    if b > 0 {
      TimesAdd(a, b - 1, x);
    }
  }

  lemma {:induction false} Pigeonhole(s: seq<int>, m: nat)
    requires Distinct(s)
    requires forall i :: 0 <= i < |s| ==> 0 <= s[i] < m
    ensures |s| <= m
  {
    if |s| > 0 {
      assert 0 <= s[0] < m;
      if k :| 0 <= k < |s| && s[k] == m - 1 {
        Pigeonhole(s[..k] + s[k + 1..], m - 1);
      } else {
        Pigeonhole(s, m - 1);
      }
    }
  }

  /** A permutation reaches every number of its range. */
  lemma PermutationOnto(n: nat, s: seq<int>, x: int)
    requires Permutation(n, s) && 0 <= x < n
    ensures x in s
  {
    if x !in s {
      var t := s + [x];
      Pigeonhole(t, n);
    }
  }

  /** The entries of `xs`, read in the order `s`. */
  function Reorder(xs: seq<real>, s: seq<int>): (r: seq<real>)
    requires forall i :: 0 <= i < |s| ==> 0 <= s[i] < |xs|
  {
    seq(|s|, i requires 0 <= i < |s| => xs[s[i]])
  }

  /** Taking the largest number out of a permutation leaves a permutation. */
  lemma PermutationDrop(n: nat, s: seq<int>, k: nat)
    requires Permutation(n + 1, s) && k <= n && s[k] == n
    ensures Permutation(n, s[..k] + s[k + 1..])
  {
    var t := s[..k] + s[k + 1..];
    forall i | 0 <= i < n ensures 0 <= t[i] < n {
      assert t[i] == if i < k then s[i] else s[i + 1];
    }
  }

  lemma ReorderDrop(xs: seq<real>, s: seq<int>, k: nat)
    requires |xs| > 0 && Permutation(|xs|, s) && k < |xs| && s[k] == |xs| - 1
    ensures Permutation(|xs| - 1, s[..k] + s[k + 1..])
    ensures Reorder(xs[..|xs| - 1], s[..k] + s[k + 1..]) == Reorder(xs, s)[..k] + Reorder(xs, s)[k + 1..]
  {
    var n: nat := |xs| - 1;
    PermutationDrop(n, s, k);
    var t := s[..k] + s[k + 1..];
    var left, right := Reorder(xs[..n], t), Reorder(xs, s)[..k] + Reorder(xs, s)[k + 1..];
    hide Distinct;
    forall i | 0 <= i < n ensures left[i] == right[i] {
      assert t[i] == if i < k then s[i] else s[i + 1];
    }
  }

  /** Reordering by a permutation keeps the sum. */
  lemma {:induction false} SumReorder(xs: seq<real>, s: seq<int>)
    requires Permutation(|xs|, s)
    ensures Sum(Reorder(xs, s)) == Sum(xs)
  {
    if |xs| > 0 {
      var n: nat := |xs| - 1;
      PermutationOnto(n + 1, s, n);
      var k :| 0 <= k < |s| && s[k] == n;
      hide Distinct;
      ReorderDrop(xs, s, k);
      SumReorder(xs[..n], s[..k] + s[k + 1..]);
      SumRemove(Reorder(xs, s), k);
    }
  }
}
