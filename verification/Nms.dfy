/**
  Greedy non-maximum suppression. `Greedy` is the rule: take the best candidate, drop what it
  suppresses, go on with the rest. `Apply` does that in place, with flags and compaction.
 */
module Nms {
  import opened Detections

  datatype NmsOptions = NmsOptions(iouThreshold: real, maxDetections: nat, maxCandidates: nat, classAgnostic: bool)

  /** Same class, unless classes do not matter, and more overlap than allowed. */
  predicate Suppresses(o: NmsOptions, a: Detection, b: Detection) {
    (o.classAgnostic || b.classId == a.classId) && Iou(a.box, b.box) > o.iouThreshold
  }

  lemma SuppressionIsSymmetric(o: NmsOptions, a: Detection, b: Detection)
    ensures Suppresses(o, a, b) == Suppresses(o, b, a)
  {
    hide Iou;
    IouRange(a.box, b.box);
  }

  ghost predicate ByScore(s: seq<Detection>) {
    forall i, j :: 0 <= i < j < |s| ==> s[i].score >= s[j].score
  }

  /** What is left of s once `best` has suppressed what it can. */
  function Unsuppressed(o: NmsOptions, best: Detection, s: seq<Detection>): (r: seq<Detection>)
    ensures |r| <= |s|
  {
    if |s| == 0 then []
    else if Suppresses(o, best, s[0]) then Unsuppressed(o, best, s[1..])
    else [s[0]] + Unsuppressed(o, best, s[1..])
  }

  /** At most `limit` survivors of the candidates c, best first. */
  function Greedy(o: NmsOptions, c: seq<Detection>, limit: nat): seq<Detection>
    decreases |c|
  {
    if |c| == 0 || limit == 0 then []
    else [c[0]] + Greedy(o, Unsuppressed(o, c[0], c[1..]), limit - 1)
  }

  lemma GreedyUnfolds(o: NmsOptions, c: seq<Detection>, limit: nat)
    ensures |c| == 0 || limit == 0 ==> Greedy(o, c, limit) == []
    ensures |c| > 0 && limit > 0 ==>
      Greedy(o, c, limit) == [c[0]] + Greedy(o, Unsuppressed(o, c[0], c[1..]), limit - 1)
  {
    hide Suppresses, Unsuppressed;
  }

  // ---------- what greedy suppression guarantees ----------

  lemma {:induction false} UnsuppressedMembers(o: NmsOptions, best: Detection, s: seq<Detection>)
    ensures forall x :: x in Unsuppressed(o, best, s) <==> x in s && !Suppresses(o, best, x)
  {
    hide Suppresses;
    if |s| > 0 {
      UnsuppressedMembers(o, best, s[1..]);
      assert s == [s[0]] + s[1..];
    }
  }

  lemma {:induction false} UnsuppressedByScore(o: NmsOptions, best: Detection, s: seq<Detection>)
    requires ByScore(s)
    ensures ByScore(Unsuppressed(o, best, s))
  {
    hide Suppresses;
    if |s| > 0 {
      UnsuppressedByScore(o, best, s[1..]);
      UnsuppressedMembers(o, best, s[1..]);
      var r := Unsuppressed(o, best, s[1..]);
      forall i | 0 <= i < |r| ensures s[0].score >= r[i].score {
        assert r[i] in s[1..];
      }
    }
  }

  lemma {:induction false} UnsuppressedPart(o: NmsOptions, best: Detection, s: seq<Detection>)
    ensures multiset(Unsuppressed(o, best, s)) <= multiset(s)
  {
    hide Suppresses;
    if |s| > 0 {
      UnsuppressedPart(o, best, s[1..]);
      assert s == [s[0]] + s[1..];
    }
  }

  /** Survivors are candidates, each as often at most as it was one, and no more than the limit. */
  lemma {:induction false} SurvivorsArePart(o: NmsOptions, c: seq<Detection>, limit: nat)
    ensures multiset(Greedy(o, c, limit)) <= multiset(c)
    ensures |Greedy(o, c, limit)| <= limit && |Greedy(o, c, limit)| <= |c|
    decreases |c|
  {
    hide Suppresses, Greedy, Unsuppressed;
    GreedyUnfolds(o, c, limit);
    if |c| > 0 && limit > 0 {
      var rest := Unsuppressed(o, c[0], c[1..]);
      SurvivorsArePart(o, rest, limit - 1);
      UnsuppressedPart(o, c[0], c[1..]);
      PartOfBoth(c[0], Greedy(o, rest, limit - 1), rest, c);
    }
  }

  lemma PartOfBoth(x: Detection, g: seq<Detection>, rest: seq<Detection>, c: seq<Detection>)
    requires |c| > 0 && c[0] == x && multiset(g) <= multiset(rest) <= multiset(c[1..])
    ensures multiset([x] + g) <= multiset(c)
  {
    assert c == [x] + c[1..];
  }

  lemma SurvivorsAreCandidates(o: NmsOptions, c: seq<Detection>, limit: nat)
    ensures forall i :: 0 <= i < |Greedy(o, c, limit)| ==> Greedy(o, c, limit)[i] in c
  {
    hide Suppresses, Greedy;
    SurvivorsArePart(o, c, limit);
    var g := Greedy(o, c, limit);
    forall i | 0 <= i < |g| ensures g[i] in c {
      assert g[i] in multiset(g);
    }
  }

  /** Survivors come best first. */
  lemma {:induction false} SurvivorsByScore(o: NmsOptions, c: seq<Detection>, limit: nat)
    requires ByScore(c)
    ensures ByScore(Greedy(o, c, limit))
    decreases |c|
  {
    hide Suppresses, Greedy, Unsuppressed;
    GreedyUnfolds(o, c, limit);
    if |c| > 0 && limit > 0 {
      var rest := Unsuppressed(o, c[0], c[1..]);
      UnsuppressedByScore(o, c[0], c[1..]);
      SurvivorsByScore(o, rest, limit - 1);
      SurvivorsAreCandidates(o, rest, limit - 1);
      UnsuppressedMembers(o, c[0], c[1..]);
      var g := Greedy(o, rest, limit - 1);
      forall i | 0 <= i < |g| ensures c[0].score >= g[i].score {
        assert g[i] in c[1..];
      }
    }
  }

  ghost predicate Compatible(o: NmsOptions, s: seq<Detection>) {
    forall i, j :: 0 <= i < |s| && 0 <= j < |s| && i != j ==> !Suppresses(o, s[i], s[j])
  }

  /** No survivor suppresses another. */
  lemma {:induction false} SurvivorsAreCompatible(o: NmsOptions, c: seq<Detection>, limit: nat)
    ensures Compatible(o, Greedy(o, c, limit))
    decreases |c|
  {
    hide Suppresses, Greedy, Unsuppressed;
    GreedyUnfolds(o, c, limit);
    if |c| > 0 && limit > 0 {
      var rest := Unsuppressed(o, c[0], c[1..]);
      SurvivorsAreCompatible(o, rest, limit - 1);
      SurvivorsAreCandidates(o, rest, limit - 1);
      UnsuppressedMembers(o, c[0], c[1..]);
      var g := Greedy(o, rest, limit - 1);
      forall i | 0 <= i < |g| ensures !Suppresses(o, c[0], g[i]) && !Suppresses(o, g[i], c[0]) {
        SuppressionIsSymmetric(o, c[0], g[i]);
      }
    }
  }

  ghost predicate SuppressedByBetter(o: NmsOptions, g: seq<Detection>, x: Detection) {
    exists i :: 0 <= i < |g| && Suppresses(o, g[i], x) && g[i].score >= x.score
  }

  /** A candidate that does not survive is suppressed by a survivor at least as good, unless the limit was reached. */
  lemma {:induction false} DiscardsAreSuppressed(o: NmsOptions, c: seq<Detection>, limit: nat, x: Detection)
    requires ByScore(c) && x in c
    ensures x in Greedy(o, c, limit) || SuppressedByBetter(o, Greedy(o, c, limit), x) || |Greedy(o, c, limit)| == limit
    decreases |c|
  {
    hide Suppresses, Greedy, Unsuppressed;
    GreedyUnfolds(o, c, limit);
    if limit > 0 {
      var rest := Unsuppressed(o, c[0], c[1..]);
      var g, all := Greedy(o, rest, limit - 1), Greedy(o, c, limit);
      assert all[0] == c[0];
      if x != c[0] {
        assert x in c[1..];
        UnsuppressedMembers(o, c[0], c[1..]);
        UnsuppressedByScore(o, c[0], c[1..]);
        if x in rest {
          DiscardsAreSuppressed(o, rest, limit - 1, x);
          if i :| 0 <= i < |g| && Suppresses(o, g[i], x) && g[i].score >= x.score {
            assert all[i + 1] == g[i];
          }
        }
      }
    }
  }

  /** A lower limit only cuts the list short. */
  lemma {:induction false} LimitIsPrefix(o: NmsOptions, c: seq<Detection>, limit: nat, more: nat)
    requires limit <= more
    ensures Greedy(o, c, limit) <= Greedy(o, c, more)
    ensures |Greedy(o, c, limit)| == if |Greedy(o, c, more)| <= limit then |Greedy(o, c, more)| else limit
    decreases |c|
  {
    hide Suppresses, Greedy, Unsuppressed;
    GreedyUnfolds(o, c, limit);
    GreedyUnfolds(o, c, more);
    if |c| > 0 && limit > 0 {
      LimitIsPrefix(o, Unsuppressed(o, c[0], c[1..]), limit - 1, more - 1);
    }
  }

  lemma {:induction false} NothingSuppressed(o: NmsOptions, best: Detection, s: seq<Detection>)
    requires forall i :: 0 <= i < |s| ==> !Suppresses(o, best, s[i])
    ensures Unsuppressed(o, best, s) == s
  {
    hide Suppresses;
    if |s| > 0 {
      NothingSuppressed(o, best, s[1..]);
    }
  }

  /** Compatible candidates all survive. */
  lemma {:induction false} CompatibleSurvive(o: NmsOptions, c: seq<Detection>, limit: nat)
    requires Compatible(o, c) && |c| <= limit
    ensures Greedy(o, c, limit) == c
    decreases |c|
  {
    hide Suppresses, Greedy, Unsuppressed;
    GreedyUnfolds(o, c, limit);
    if |c| > 0 {
      NothingSuppressed(o, c[0], c[1..]);
      CompatibleSurvive(o, c[1..], limit - 1);
    }
  }

  /** In plain numbers: survivors that compete overlap by no more than the threshold. */
  lemma SurvivorsOverlapLittle(o: NmsOptions, c: seq<Detection>, limit: nat, i: nat, j: nat)
    requires i < |Greedy(o, c, limit)| && j < |Greedy(o, c, limit)| && i != j
    requires var g := Greedy(o, c, limit); o.classAgnostic || g[i].classId == g[j].classId
    ensures var g := Greedy(o, c, limit); Iou(g[i].box, g[j].box) <= o.iouThreshold
  {
    hide Greedy, Iou;
    SurvivorsAreCompatible(o, c, limit);
  }

  /** And what is dropped overlaps by more with a survivor it competes with, that is at least as good. */
  lemma DiscardsOverlapMuch(o: NmsOptions, c: seq<Detection>, limit: nat, x: Detection) returns (i: nat)
    requires ByScore(c) && x in c && x !in Greedy(o, c, limit) && |Greedy(o, c, limit)| < limit
    ensures var g := Greedy(o, c, limit);
      && i < |g| && Iou(g[i].box, x.box) > o.iouThreshold && g[i].score >= x.score
      && (o.classAgnostic || g[i].classId == x.classId)
  {
    hide Greedy, Iou;
    DiscardsAreSuppressed(o, c, limit, x);
    var g := Greedy(o, c, limit);
    i :| 0 <= i < |g| && Suppresses(o, g[i], x) && g[i].score >= x.score;
  }

  // ---------- classes ----------

  /** The candidates of one class, in order. */
  function OfClass(s: seq<Detection>, k: int): seq<Detection> {
    if |s| == 0 then []
    else if s[0].classId == k then [s[0]] + OfClass(s[1..], k)
    else OfClass(s[1..], k)
  }

  lemma {:induction false} OtherClassSuppressesNone(o: NmsOptions, best: Detection, s: seq<Detection>, k: int)
    requires !o.classAgnostic
    ensures OfClass(Unsuppressed(o, best, s), k) ==
      if best.classId == k then Unsuppressed(o, best, OfClass(s, k)) else OfClass(s, k)
  {
    hide Iou;
    if |s| > 0 {
      OtherClassSuppressesNone(o, best, s[1..], k);
      if !Suppresses(o, best, s[0]) {
        var r := Unsuppressed(o, best, s[1..]);
        assert ([s[0]] + r)[1..] == r;
      }
      if s[0].classId == k {
        var r := OfClass(s[1..], k);
        assert ([s[0]] + r)[1..] == r;
      }
    }
  }

  lemma {:induction false} OfClassIsShorter(s: seq<Detection>, k: int)
    ensures |OfClass(s, k)| <= |s|
  {
    if |s| > 0 {
      OfClassIsShorter(s[1..], k);
    }
  }

  /** Unless classes do not matter, each is suppressed as if it were alone. */
  lemma {:induction false} ClassesAreIndependent(o: NmsOptions, c: seq<Detection>, k: int, limit: nat, alone: nat)
    requires !o.classAgnostic && limit >= |c| && alone >= |OfClass(c, k)|
    ensures OfClass(Greedy(o, c, limit), k) == Greedy(o, OfClass(c, k), alone)
    decreases |c|
  {
    hide Suppresses, Greedy, Unsuppressed;
    GreedyUnfolds(o, c, limit);
    GreedyUnfolds(o, OfClass(c, k), alone);
    if |c| > 0 {
      var rest := Unsuppressed(o, c[0], c[1..]);
      var g := Greedy(o, rest, limit - 1);
      assert ([c[0]] + g)[1..] == g;
      OtherClassSuppressesNone(o, c[0], c[1..], k);
      if c[0].classId == k {
        var mine := OfClass(c[1..], k);
        assert ([c[0]] + mine)[1..] == mine;
        assert |OfClass(rest, k)| <= |mine|;
        ClassesAreIndependent(o, rest, k, limit - 1, alone - 1);
      } else {
        ClassesAreIndependent(o, rest, k, limit - 1, alone);
      }
    }
  }

  /** The same detections, but for their classes. */
  ghost predicate SameButClass(s: seq<Detection>, t: seq<Detection>) {
    |s| == |t| && forall i :: 0 <= i < |s| ==> s[i].box == t[i].box && s[i].score == t[i].score
  }

  lemma {:induction false} UnsuppressedButClass(o: NmsOptions, a: Detection, b: Detection, s: seq<Detection>,
      t: seq<Detection>)
    requires o.classAgnostic && a.box == b.box && SameButClass(s, t)
    ensures SameButClass(Unsuppressed(o, a, s), Unsuppressed(o, b, t))
  {
    hide Iou;
    if |s| > 0 {
      UnsuppressedButClass(o, a, b, s[1..], t[1..]);
    }
  }

  /** If classes do not matter, they do not matter. */
  lemma {:induction false} AgnosticIgnoresClasses(o: NmsOptions, c: seq<Detection>, d: seq<Detection>, limit: nat)
    requires o.classAgnostic && SameButClass(c, d)
    ensures SameButClass(Greedy(o, c, limit), Greedy(o, d, limit))
    decreases |c|
  {
    hide Suppresses, Greedy, Unsuppressed;
    GreedyUnfolds(o, c, limit);
    GreedyUnfolds(o, d, limit);
    if |c| > 0 && limit > 0 {
      UnsuppressedButClass(o, c[0], d[0], c[1..], d[1..]);
      AgnosticIgnoresClasses(o, Unsuppressed(o, c[0], c[1..]), Unsuppressed(o, d[0], d[1..]), limit - 1);
    }
  }

  lemma {:induction false} Occurs(s: seq<Detection>, x: Detection) returns (i: nat)
    requires x in s
    ensures i < |s| && s[i] == x
  {
    i :| 0 <= i < |s| && s[i] == x;
  }

  lemma TwoOccurrences(s: seq<Detection>, x: Detection) returns (i: nat, j: nat)
    requires multiset(s)[x] >= 2
    ensures i < j < |s| && s[i] == x && s[j] == x
  {
    assert x in multiset(s);
    i :| 0 <= i < |s| && s[i] == x;
    assert s == s[..i] + ([x] + s[i + 1..]);
    assert multiset(s) == multiset(s[..i]) + multiset{x} + multiset(s[i + 1..]);
    if x in s[i + 1..] {
      var k := Occurs(s[i + 1..], x);
      j := i + 1 + k;
    } else {
      assert x in multiset(s[..i]);
      var k := Occurs(s[..i], x);
      i, j := k, i;
    }
  }

  /** Compatibility does not depend on the order. */
  lemma CompatibleInAnyOrder(o: NmsOptions, s: seq<Detection>, t: seq<Detection>)
    requires Compatible(o, s) && multiset(s) == multiset(t)
    ensures Compatible(o, t)
  {
    hide Suppresses;
    forall i, j | 0 <= i < |t| && 0 <= j < |t| && i != j ensures !Suppresses(o, t[i], t[j]) {
      assert t[i] in multiset(s) && t[j] in multiset(s);
      if t[i] == t[j] {
        OccursTwice(t, i, j);
        var a, b := TwoOccurrences(s, t[i]);
      } else {
        var a := Occurs(s, t[i]);
        var b := Occurs(s, t[j]);
      }
    }
  }

  lemma OccursTwice(t: seq<Detection>, i: nat, j: nat)
    requires i < |t| && j < |t| && i != j && t[i] == t[j]
    ensures multiset(t)[t[i]] >= 2
  {
    var a, b := if i < j then i else j, if i < j then j else i;
    assert t == t[..a] + [t[a]] + t[a + 1..b] + [t[b]] + t[b + 1..];
  }

  /** The first candidates, as many as allowed. */
  function Truncated(o: NmsOptions, order: seq<Detection>): seq<Detection> {
    if |order| > o.maxCandidates then order[..o.maxCandidates] else order
  }

  /** Applying it again, after any reordering of the survivors, keeps them all. */
  lemma SuppressionIsIdempotent(o: NmsOptions, first: seq<Detection>, again: seq<Detection>)
    requires multiset(again) == multiset(Greedy(o, Truncated(o, first), o.maxDetections))
    ensures Greedy(o, Truncated(o, again), o.maxDetections) == again
  {
    hide Suppresses, Greedy;
    var c := Truncated(o, first);
    var g := Greedy(o, c, o.maxDetections);
    SurvivorsAreCompatible(o, c, o.maxDetections);
    SurvivorsArePart(o, c, o.maxDetections);
    CompatibleInAnyOrder(o, g, again);
    assert |again| == |multiset(again)| == |multiset(g)| == |g|;
    CompatibleSurvive(o, again, o.maxDetections);
  }

  // ---------- the algorithm ----------

  /** From position i on, what has not been suppressed. */
  ghost function Remaining(c: seq<Detection>, suppressed: seq<bool>, i: nat): seq<Detection>
    requires |suppressed| == |c| && i <= |c|
    decreases |c| - i
  {
    if i == |c| then []
    else if suppressed[i] then Remaining(c, suppressed, i + 1)
    else [c[i]] + Remaining(c, suppressed, i + 1)
  }

  /** Marking what `best` suppresses leaves what `best` does not suppress. */
  lemma {:induction false} MarkingSuppresses(o: NmsOptions, c: seq<Detection>, before: seq<bool>,
      after: seq<bool>, best: Detection, i: nat)
    requires |before| == |after| == |c| && i <= |c|
    requires forall j :: i <= j < |c| ==> after[j] == (before[j] || Suppresses(o, best, c[j]))
    ensures Remaining(c, after, i) == Unsuppressed(o, best, Remaining(c, before, i))
    decreases |c| - i
  {
    hide Suppresses;
    if i < |c| {
      MarkingSuppresses(o, c, before, after, best, i + 1);
    }
  }

  lemma {:induction false} NoneMarked(c: seq<Detection>, suppressed: seq<bool>, i: nat)
    requires |suppressed| == |c| && i <= |c| && forall j :: 0 <= j < |c| ==> !suppressed[j]
    ensures Remaining(c, suppressed, i) == c[i..]
    decreases |c| - i
  {
    if i < |c| {
      NoneMarked(c, suppressed, i + 1);
    }
  }

  /** x, put where its score belongs. */
  function Insert(s: seq<Detection>, x: Detection): (r: seq<Detection>)
    ensures |r| == |s| + 1 && multiset(r) == multiset(s) + multiset{x}
  {
    if |s| == 0 || s[|s| - 1].score >= x.score then s + [x]
    else
      assert s == s[..|s| - 1] + [s[|s| - 1]];
      Insert(s[..|s| - 1], x) + [s[|s| - 1]]
  }

  lemma {:induction false} InsertByScore(s: seq<Detection>, x: Detection)
    requires ByScore(s)
    ensures ByScore(Insert(s, x))
  {
    if |s| > 0 && s[|s| - 1].score < x.score {
      var n := |s| - 1;
      InsertByScore(s[..n], x);
      var r := Insert(s[..n], x);
      forall i | 0 <= i < |r| ensures r[i].score >= s[n].score {
        assert r[i] in multiset(r);
        assert r[i] in s[..n] || r[i] == x;
      }
    }
  }

  class Nms {
    const options: NmsOptions
    var suppressed: array<bool>

    constructor (options: NmsOptions)
      ensures this.options == options
    {
      this.options := options;
      suppressed := new bool[0];
    }

    /** Sort by descending score; any such order would do. */
    method Sort(d: array<Detection>)
      modifies d
      ensures ByScore(d[..]) && multiset(d[..]) == multiset(old(d[..]))
    {
      var sorted: seq<Detection> := [];
      var k := 0;
      while k < d.Length
        invariant 0 <= k <= d.Length && |sorted| == k
        invariant d[..] == old(d[..])
        invariant ByScore(sorted) && multiset(sorted) == multiset(d[..k])
      {
        InsertByScore(sorted, d[k]);
        sorted := Insert(sorted, d[k]);
        assert d[..k + 1] == d[..k] + [d[k]];
        k := k + 1;
      }
      assert d[..d.Length] == d[..];
      k := 0;
      while k < d.Length
        invariant 0 <= k <= d.Length && d[..k] == sorted[..k]
      {
        d[k] := sorted[k];
        k := k + 1;
      }
      assert d[..] == sorted;
    }

    /** Mark everything after i that detection i suppresses. */
    method Mark(d: array<Detection>, n: nat, i: nat)
      requires i < n <= d.Length && suppressed.Length == n
      modifies suppressed
      ensures forall j :: 0 <= j <= i ==> suppressed[j] == old(suppressed[j])
      ensures forall j :: i < j < n ==> suppressed[j] == (old(suppressed[j]) || Suppresses(options, d[i], d[j]))
    {
      hide Iou;
      var current := d[i];
      var j := i + 1;
      while j < n
        invariant i < j <= n
        invariant forall k :: 0 <= k <= i ==> suppressed[k] == old(suppressed[k])
        invariant forall k :: i < k < j ==> suppressed[k] == (old(suppressed[k]) || Suppresses(options, current, d[k]))
        invariant forall k :: j <= k < n ==> suppressed[k] == old(suppressed[k])
      {
        if !suppressed[j] && (options.classAgnostic || d[j].classId == current.classId) {
          if Iou(current.box, d[j].box) > options.iouThreshold {
            suppressed[j] := true;
          }
        }
        j := j + 1;
      }
    }

    /**
      Suppress in place: the first `kept` entries are the greedy survivors of the sorted,
      truncated candidates.
     */
    method Apply(d: array<Detection>) returns (kept: nat, ghost order: seq<Detection>)
      modifies this, d
      ensures ByScore(order) && multiset(order) == multiset(old(d[..]))
      ensures kept <= d.Length
      ensures d[..kept] == Greedy(options, Truncated(options, order), options.maxDetections)
    {
      hide Suppresses, Greedy, Underway, ByScore;
      Sort(d);
      order := d[..];
      var n := if d.Length > options.maxCandidates then options.maxCandidates else d.Length;
      ghost var c := Truncated(options, order);
      suppressed := new bool[n](_ => false);
      NothingDone(options, c, suppressed[..]);
      kept := 0;
      assert d[..0] == [];
      var i := 0;
      while i < n && kept < options.maxDetections
        invariant 0 <= kept <= i <= n <= d.Length && kept <= options.maxDetections
        invariant |c| == n == suppressed.Length && fresh(suppressed)
        invariant forall k :: i <= k < n ==> d[k] == c[k]
        invariant Underway(options, c, suppressed[..], i, d[..kept])
      {
        if suppressed[i] {
          SkipSuppressed(options, c, suppressed[..], i, d[..kept]);
        } else {
          ghost var before, done := suppressed[..], d[..kept];
          var current := d[i];
          Mark(d, n, i);
          TakeBest(options, c, before, suppressed[..], i, done);
          d[kept] := current;
          kept := kept + 1;
          assert d[..kept] == done + [current];
        }
        i := i + 1;
      }
      AllDone(options, c, suppressed[..], i, d[..kept]);
    }
  }

  /** The survivors taken so far, and those still to come, are all of them. */
  ghost predicate Underway(o: NmsOptions, c: seq<Detection>, suppressed: seq<bool>, i: nat, done: seq<Detection>) {
    && |suppressed| == |c| && i <= |c| && |done| <= o.maxDetections
    && done + Greedy(o, Remaining(c, suppressed, i), o.maxDetections - |done|) == Greedy(o, c, o.maxDetections)
  }

  lemma NothingDone(o: NmsOptions, c: seq<Detection>, suppressed: seq<bool>)
    requires |suppressed| == |c| && forall j :: 0 <= j < |c| ==> !suppressed[j]
    ensures Underway(o, c, suppressed, 0, [])
  {
    hide Suppresses, Greedy;
    NoneMarked(c, suppressed, 0);
    assert c[0..] == c;
  }

  lemma SkipSuppressed(o: NmsOptions, c: seq<Detection>, suppressed: seq<bool>, i: nat, done: seq<Detection>)
    requires Underway(o, c, suppressed, i, done) && i < |c| && suppressed[i]
    ensures Underway(o, c, suppressed, i + 1, done)
  {
    hide Suppresses, Greedy;
  }

  lemma TakeBest(o: NmsOptions, c: seq<Detection>, before: seq<bool>, after: seq<bool>, i: nat, done: seq<Detection>)
    requires Underway(o, c, before, i, done) && i < |c| && !before[i] && |done| < o.maxDetections
    requires |after| == |c| && forall j :: i < j < |c| ==> after[j] == (before[j] || Suppresses(o, c[i], c[j]))
    ensures Underway(o, c, after, i + 1, done + [c[i]])
  {
    hide Suppresses, Greedy, Remaining, Unsuppressed;
    MarkingSuppresses(o, c, before, after, c[i], i + 1);
    GreedyStep(o, c, before, after, i, o.maxDetections - |done|);
    var rest := Greedy(o, Remaining(c, after, i + 1), o.maxDetections - |done| - 1);
    assert done + ([c[i]] + rest) == done + [c[i]] + rest;
  }

  lemma AllDone(o: NmsOptions, c: seq<Detection>, suppressed: seq<bool>, i: nat, done: seq<Detection>)
    requires Underway(o, c, suppressed, i, done) && (i == |c| || |done| == o.maxDetections)
    ensures done == Greedy(o, c, o.maxDetections)
  {
    hide Suppresses, Greedy;
    GreedyUnfolds(o, Remaining(c, suppressed, i), o.maxDetections - |done|);
    assert done + [] == done;
  }

  lemma GreedyStep(o: NmsOptions, c: seq<Detection>, before: seq<bool>, after: seq<bool>, i: nat, limit: nat)
    requires |before| == |after| == |c| && i < |c| && !before[i] && limit > 0
    requires Remaining(c, after, i + 1) == Unsuppressed(o, c[i], Remaining(c, before, i + 1))
    ensures Greedy(o, Remaining(c, before, i), limit) == [c[i]] + Greedy(o, Remaining(c, after, i + 1), limit - 1)
  {
    hide Suppresses, Greedy, Unsuppressed;
    GreedyUnfolds(o, Remaining(c, before, i), limit);
    var rest := Remaining(c, before, i + 1);
    assert ([c[i]] + rest)[1..] == rest;
  }
}
