/**
  The tracker: predict, associate three times, start new tracks, age the lost ones, report. Its
  `Update` is one step of the relation that the history lemmas are about.
 */
module ByteTracker {
  import opened Detections
  import opened GatedMatching
  import opened LinearAssignment
  import opened SmallMatrix
  import opened Tracks
  import opened TrackHistory
  import Kalman = BoxKalmanFilter

  ghost predicate KalmanValid(tracks: seq<Track>) {
    forall t :: 0 <= t < |tracks| ==> tracks[t].kalman.Valid()
  }

  ghost predicate NoneRemoved(tracks: seq<Track>) {
    forall t :: 0 <= t < |tracks| ==> !tracks[t].state.Removed?
  }

  lemma ValidIsShaped(tracks: seq<Track>)
    requires KalmanValid(tracks)
    ensures AllShaped(tracks)
  {
  }

  // ---------- half way through an update ----------

  function Marked(x: Track, lost: bool, gone: bool): Track {
    if gone then x.(state := Removed) else if lost then x.(state := Lost) else x
  }

  /**
    The old tracks so far: those in m follow their detection, those in `lost` and `gone` are
    marked, the others wait.
   */
  ghost predicate Settled(bases: seq<Track>, ds: seq<Detection>, frame: int, m: seq<Pair>,
      lost: seq<int>, gone: seq<int>, cur: seq<Track>) {
    && AllShaped(bases) && PairsInRange(m, |bases|, |ds|) && |cur| == |bases|
    && (forall i :: 0 <= i < |m| ==> MatchedTo(bases[m[i].0], ds[m[i].1], frame, cur[m[i].0]))
    && (forall t :: 0 <= t < |bases| && !MatchesTrack(m, t) ==> cur[t] == Marked(bases[t], t in lost, t in gone))
  }

  lemma MatchesOneMore(m: seq<Pair>, p: Pair, t: int)
    ensures MatchesTrack(m + [p], t) <==> MatchesTrack(m, t) || p.0 == t
  {
    if i :| 0 <= i < |m| && m[i].0 == t {
      assert (m + [p])[i].0 == t;
    }
    if p.0 == t {
      assert (m + [p])[|m|].0 == t;
    }
  }

  lemma SettleMatch(bases: seq<Track>, ds: seq<Detection>, frame: int, m: seq<Pair>, lost: seq<int>,
      gone: seq<int>, cur: seq<Track>, p: Pair, y: Track)
    requires Settled(bases, ds, frame, m, lost, gone, cur)
    requires 0 <= p.0 < |bases| && 0 <= p.1 < |ds| && !MatchesTrack(m, p.0)
    requires MatchedTo(bases[p.0], ds[p.1], frame, y)
    ensures Settled(bases, ds, frame, m + [p], lost, gone, cur[p.0 := y])
  {
    hide MatchedTo, MatchesTrack, Marked;
    var n, after := m + [p], cur[p.0 := y];
    forall i | 0 <= i < |n| ensures MatchedTo(bases[n[i].0], ds[n[i].1], frame, after[n[i].0]) {
      if i < |m| {
        MatchesItself(m, i);
      }
    }
    forall t | 0 <= t < |bases| && !MatchesTrack(n, t) ensures after[t] == Marked(bases[t], t in lost, t in gone) {
      MatchesOneMore(m, p, t);
    }
  }

  lemma MatchesItself(m: seq<Pair>, i: nat)
    requires i < |m|
    ensures MatchesTrack(m, m[i].0)
  {
  }

  lemma SettleMark(bases: seq<Track>, ds: seq<Detection>, frame: int, m: seq<Pair>, lost: seq<int>,
      gone: seq<int>, cur: seq<Track>, t: int, remove: bool)
    requires Settled(bases, ds, frame, m, lost, gone, cur)
    requires 0 <= t < |bases| && !MatchesTrack(m, t) && t !in lost && t !in gone
    ensures remove ==> Settled(bases, ds, frame, m, lost, gone + [t], cur[t := cur[t].(state := Removed)])
    ensures !remove ==> Settled(bases, ds, frame, m, lost + [t], gone, cur[t := cur[t].(state := Lost)])
  {
    hide MatchedTo, MatchesTrack;
    forall i | 0 <= i < |m| ensures m[i].0 != t {
      MatchesItself(m, i);
    }
  }

  /** Once all three associations are through, every old track has met its fate. */
  lemma SettledIsFates(o: Options, before: seq<Track>, ds: seq<Detection>, frame: int, log: Log, cur: seq<Track>)
    requires AllShaped(before) && AllShaped(Bases(before)) && NoneRemoved(before)
    requires Lineup(o, before, ds, log) && Gated(log)
    requires Settled(Bases(before), ds, frame, AllMatches(log), log.second.RowsLeft(), log.third.RowsLeft(), cur)
    ensures Fates(before, ds, frame, AllMatches(log), cur)
  {
    hide MatchedTo, Lineup, Gated, AllMatches, MatchesTrack, Association.RowsLeft, Kalman.Predicted,
      Association.Matches;
    GatedParts(log);
    SecondSplits(o, before, ds, log);
    ThirdSplits(o, before, ds, log);
    forall t | 0 <= t < |before| && !MatchesTrack(AllMatches(log), t) ensures cur[t] == Unmatched(before[t]) {
      TrackInAny(log, t);
    }
  }

  lemma GatedParts(log: Log)
    requires Gated(log)
    ensures LogInRange(log)
  {
  }

  lemma NoneYet(f: seq<bool>, g: seq<bool>)
    ensures Where(f, 0) == [] && Where(g, 0) == []
  {
  }

  lemma TentativeWaits(x: Track)
    requires x.kalman.Valid() && Tentative(x)
    ensures x.kalman.Shaped() && Base(x) == x
  {
  }

  // ---------- the cost buffer ----------

  /** Where entry (x, y) of a row-major buffer is. */
  function At(cols: nat, x: int, y: int): int {
    x * cols + y
  }

  lemma AtLaws(cols: nat, x: nat, y: int)
    ensures At(cols, x, y + 1) == At(cols, x, y) + 1
    ensures At(cols, x + 1, 0) == At(cols, x, cols)
    ensures At(cols, 0, 0) == 0
  {
  }

  /** The buffer holds the rows before r, and row r up to column c. */
  ghost predicate Filled(p: Problem, cost: seq<real>, r: nat, c: nat)
    requires p.Valid()
  {
    && |cost| == At(p.cols, r, c)
    && forall x, y :: 0 <= x < p.rows && 0 <= y < p.cols && (x < r || (x == r && y < c)) ==>
         0 <= At(p.cols, x, y) < |cost| && cost[At(p.cols, x, y)] == p.cost[x][y]
  }

  lemma NothingFilled(p: Problem)
    requires p.Valid()
    ensures Filled(p, [], 0, 0)
  {
  }

  lemma FilledOneMore(p: Problem, cost: seq<real>, r: nat, c: nat, v: real)
    requires p.Valid() && Filled(p, cost, r, c) && r < p.rows && c < p.cols && v == p.cost[r][c]
    ensures Filled(p, cost + [v], r, c + 1)
  {
    hide At;
    AtLaws(p.cols, r, c);
  }

  lemma FilledRow(p: Problem, cost: seq<real>, r: nat)
    requires p.Valid() && Filled(p, cost, r, p.cols) && r < p.rows
    ensures Filled(p, cost, r + 1, 0)
  {
    hide At;
    AtLaws(p.cols, r, 0);
  }

  lemma FilledAll(p: Problem, cost: seq<real>)
    requires p.Valid() && Filled(p, cost, p.rows, 0)
    ensures |cost| == p.rows * p.cols
    ensures p == Problem(p.rows, p.cols, FromRowMajor(cost, p.rows, p.cols), p.limit)
  {
    var m := FromRowMajor(cost, p.rows, p.cols);
    forall x | 0 <= x < p.rows ensures m[x] == p.cost[x] {
      forall y | 0 <= y < p.cols ensures m[x][y] == p.cost[x][y] {
        assert 0 <= At(p.cols, x, y) < |cost| && cost[At(p.cols, x, y)] == p.cost[x][y];
      }
    }
  }

  // ---------- corrections ----------

  /** The next match is of a track not matched so far. */
  lemma NotYetMatched(m: seq<Pair>, all: seq<Pair>, i: nat)
    requires i < |all| && DistinctPairs(all) && !MatchesTrack(m, all[i].0)
    ensures !MatchesTrack(m + all[..i], all[i].0)
  {
    var n := m + all[..i];
    forall j | 0 <= j < |n| ensures n[j].0 != all[i].0 {
      if j < |m| {
        MatchesItself(m, j);
      } else {
        assert n[j] == all[j - |m|];
      }
    }
  }

  /** A track that waits is still as the associations see it. */
  lemma WaitingTrack(bases: seq<Track>, ds: seq<Detection>, frame: int, m: seq<Pair>, lost: seq<int>,
      gone: seq<int>, cur: seq<Track>, t: int)
    requires Settled(bases, ds, frame, m, lost, gone, cur)
    requires 0 <= t < |bases| && !MatchesTrack(m, t) && t !in lost && t !in gone
    ensures |cur| == |bases| && cur[t] == bases[t] && bases[t].kalman.Shaped()
  {
    hide MatchedTo;
  }

  lemma SettledLength(bases: seq<Track>, ds: seq<Detection>, frame: int, m: seq<Pair>, lost: seq<int>,
      gone: seq<int>, cur: seq<Track>)
    requires Settled(bases, ds, frame, m, lost, gone, cur)
    ensures |cur| == |bases|
  {
  }

  /** Tracks not touched so far give the same costs. */
  lemma SameProblem(bases: seq<Track>, cur: seq<Track>, ds: seq<Detection>, rows: seq<int>,
      cols: seq<int>, limit: real, fuse: bool)
    requires AllShaped(bases) && AllShaped(cur) && |bases| == |cur| && Within(rows, |cur|) && Within(cols, |ds|)
    requires forall i :: 0 <= i < |rows| ==> cur[rows[i]] == bases[rows[i]]
    ensures CostProblem(cur, ds, rows, cols, limit, fuse) == CostProblem(bases, ds, rows, cols, limit, fuse)
  {
    hide Dissimilarity;
    var p, q := CostProblem(cur, ds, rows, cols, limit, fuse), CostProblem(bases, ds, rows, cols, limit, fuse);
    forall r | 0 <= r < |rows| ensures p.cost[r] == q.cost[r] {
      assert forall c :: 0 <= c < |cols| ==> p.cost[r][c] == q.cost[r][c];
    }
    assert p.cost == q.cost;
  }

  lemma MatchesWithin(a: Association, n: nat, k: nat)
    requires a.InRange() && Ascending(a.rows, n) && Ascending(a.cols, k)
    ensures PairsInRange(a.Matches(), n, k)
  {
  }

  lemma NothingSettled(bases: seq<Track>, ds: seq<Detection>, frame: int)
    requires AllShaped(bases)
    ensures Settled(bases, ds, frame, [], [], [], bases) && forall t :: !MatchesTrack([], t)
  {
  }

  lemma ListsAscend(o: Options, before: seq<Track>, ds: seq<Detection>)
    ensures Ascending(Where(PoolFlags(before), |before|), |before|)
    ensures Ascending(Where(TentativeFlags(before), |before|), |before|)
    ensures Ascending(Where(HighFlags(o, ds), |ds|), |ds|) && Ascending(Where(LowFlags(o, ds), |ds|), |ds|)
  {
    hide Where, Ascending;
    WhereIs(PoolFlags(before), |before|);
    WhereIs(TentativeFlags(before), |before|);
    WhereIs(HighFlags(o, ds), |ds|);
    WhereIs(LowFlags(o, ds), |ds|);
  }

  /** Flags that agree on a list keep the same members of it. */
  lemma {:induction false} KeepAgrees(list: seq<int>, f: seq<bool>, g: seq<bool>)
    requires |f| == |g| && Within(list, |f|) && forall i :: 0 <= i < |list| ==> f[list[i]] == g[list[i]]
    ensures Keep(list, f) == Keep(list, g)
  {
    if |list| > 0 {
      KeepAgrees(list[..|list| - 1], f, g);
    }
  }

  lemma BaseKeepsState(x: Track)
    requires x.kalman.Shaped()
    ensures Base(x).state == x.state
  {
    hide Kalman.Predicted;
  }

  /** What the first association left over is as it was; so the tracked ones among it are those of before. */
  lemma RemainingAreWaiting(before: seq<Track>, bases: seq<Track>, ds: seq<Detection>, frame: int,
      first: Association, cur: seq<Track>)
    requires AllShaped(before) && bases == Bases(before)
    requires first.InRange() && Settled(bases, ds, frame, first.Matches(), [], [], cur)
    requires Ascending(first.RowsLeft(), |bases|)
    requires forall t :: t in first.RowsLeft() <==> t in first.rows && !MatchesTrack(first.Matches(), t)
    ensures |cur| == |before| && Within(first.RowsLeft(), |before|)
    ensures Keep(first.RowsLeft(), TrackedFlags(cur)) == Keep(first.RowsLeft(), TrackedFlags(before))
    ensures Ascending(Keep(first.RowsLeft(), TrackedFlags(before)), |bases|)
    ensures forall i :: 0 <= i < |Keep(first.RowsLeft(), TrackedFlags(before))| ==>
      !MatchesTrack(first.Matches(), Keep(first.RowsLeft(), TrackedFlags(before))[i])
  {
    hide Settled, MatchesTrack, Association.Matches, Association.RowsLeft, Base, Keep;
    var list := first.RowsLeft();
    SettledLength(bases, ds, frame, first.Matches(), [], [], cur);
    forall i | 0 <= i < |list| ensures TrackedFlags(cur)[list[i]] == TrackedFlags(before)[list[i]] {
      assert list[i] in list;
      WaitingTrack(bases, ds, frame, first.Matches(), [], [], cur, list[i]);
      BaseKeepsState(before[list[i]]);
    }
    KeepAgrees(list, TrackedFlags(cur), TrackedFlags(before));
    KeepIs(list, TrackedFlags(before));
    var kept := Keep(list, TrackedFlags(before));
    forall i | 0 <= i < |kept| ensures !MatchesTrack(first.Matches(), kept[i]) {
      assert kept[i] in kept;
    }
  }

  /** The parts of the lineup known after two associations. */
  ghost predicate TwoStages(before: seq<Track>, first: Association, second: Association) {
    && first.rows == Where(PoolFlags(before), |before|) && first.InRange() && second.InRange()
    && Ascending(first.RowsLeft(), |before|)
    && (forall i :: 0 <= i < |first.Matches()| ==> first.Matches()[i].0 in first.rows)
    && (forall t :: t in first.RowsLeft() <==> t in first.rows && !MatchesTrack(first.Matches(), t))
    && second.rows == Keep(first.RowsLeft(), TrackedFlags(before))
    && (forall i :: 0 <= i < |second.Matches()| ==> second.Matches()[i].0 in second.rows)
    && (forall t :: t in second.RowsLeft() <==> t in second.rows && !MatchesTrack(second.Matches(), t))
  }

  lemma MatchesEither(a: seq<Pair>, b: seq<Pair>, t: int)
    ensures MatchesTrack(a + b, t) <==> MatchesTrack(a, t) || MatchesTrack(b, t)
  {
    if i :| 0 <= i < |a| && a[i].0 == t { assert (a + b)[i].0 == t; }
    if i :| 0 <= i < |b| && b[i].0 == t { assert (a + b)[|a| + i].0 == t; }
  }

  lemma SecondRows(before: seq<Track>, first: Association, second: Association)
    requires TwoStages(before, first, second)
    ensures forall t :: t in second.rows ==>
      0 <= t < |before| && PoolFlags(before)[t] && !MatchesTrack(first.Matches(), t)
    ensures forall t :: t in first.rows ==> 0 <= t < |before| && PoolFlags(before)[t]
  {
    hide MatchesTrack, Association.Matches, Association.RowsLeft, Where, Keep;
    KeepIs(first.RowsLeft(), TrackedFlags(before));
    WhereIs(PoolFlags(before), |before|);
  }

  lemma LeftoversAreWaiting(before: seq<Track>, first: Association, second: Association)
    requires TwoStages(before, first, second)
    ensures forall i :: 0 <= i < |second.RowsLeft()| ==>
      !MatchesTrack(first.Matches() + second.Matches(), second.RowsLeft()[i])
  {
    hide MatchesTrack, Association.Matches, Association.RowsLeft, Where, Keep;
    SecondRows(before, first, second);
    var left := second.RowsLeft();
    forall i | 0 <= i < |left| ensures !MatchesTrack(first.Matches() + second.Matches(), left[i]) {
      assert left[i] in left;
      MatchesEither(first.Matches(), second.Matches(), left[i]);
    }
  }

  lemma MatchedIsListed(a: Association, t: int)
    requires a.InRange() && MatchesTrack(a.Matches(), t)
    requires forall i :: 0 <= i < |a.Matches()| ==> a.Matches()[i].0 in a.rows
    ensures t in a.rows
  {
  }

  lemma TentativeIsWaiting(before: seq<Track>, first: Association, second: Association, t: int)
    requires TwoStages(before, first, second) && 0 <= t < |before| && Tentative(before[t])
    ensures !MatchesTrack(first.Matches() + second.Matches(), t) && t !in second.RowsLeft()
  {
    hide MatchesTrack, Association.Matches, Association.RowsLeft, Where, Keep;
    SecondRows(before, first, second);
    MatchesEither(first.Matches(), second.Matches(), t);
    if MatchesTrack(first.Matches(), t) {
      MatchedIsListed(first, t);
    }
    if MatchesTrack(second.Matches(), t) {
      MatchedIsListed(second, t);
    }
  }

  lemma TentativeAreWaiting(before: seq<Track>, first: Association, second: Association)
    requires first.InRange() && second.InRange() && TwoStages(before, first, second)
    ensures var u := Where(TentativeFlags(before), |before|); forall i :: 0 <= i < |u| ==>
      !MatchesTrack(first.Matches() + second.Matches(), u[i]) && u[i] !in second.RowsLeft()
  {
    hide MatchesTrack, Association.Matches, Association.RowsLeft, Where, Keep, TwoStages;
    var u := Where(TentativeFlags(before), |before|);
    WhereIs(TentativeFlags(before), |before|);
    forall i | 0 <= i < |u|
      ensures !MatchesTrack(first.Matches() + second.Matches(), u[i]) && u[i] !in second.RowsLeft()
    {
      assert u[i] in u;
      TentativeIsWaiting(before, first, second, u[i]);
    }
  }

  lemma RejectsAreWaiting(before: seq<Track>, first: Association, second: Association, third: Association)
    requires first.InRange() && second.InRange() && TwoStages(before, first, second)
    requires third.InRange() && third.rows == Where(TentativeFlags(before), |before|)
    requires forall t :: t in third.RowsLeft() <==> t in third.rows && !MatchesTrack(third.Matches(), t)
    ensures forall i :: 0 <= i < |third.RowsLeft()| ==>
      !MatchesTrack(first.Matches() + second.Matches() + third.Matches(), third.RowsLeft()[i])
        && third.RowsLeft()[i] !in second.RowsLeft()
  {
    hide MatchesTrack, Association.Matches, Association.RowsLeft, Where, Keep, TwoStages;
    WhereIs(TentativeFlags(before), |before|);
    var left, m := third.RowsLeft(), first.Matches() + second.Matches();
    forall i | 0 <= i < |left| ensures !MatchesTrack(m + third.Matches(), left[i]) && left[i] !in second.RowsLeft() {
      assert left[i] in left;
      TentativeIsWaiting(before, first, second, left[i]);
      MatchesEither(m, third.Matches(), left[i]);
    }
  }

  lemma FatesFollow(o: Options, before: seq<Track>, ds: seq<Detection>, frame: int, log: Log, cur: seq<Track>)
    requires AllShaped(before) && AllShaped(Bases(before)) && NoneRemoved(before)
    requires Lineup(o, before, ds, log) && Gated(log)
    requires Settled(Bases(before), ds, frame, AllMatches(log), log.second.RowsLeft(), log.third.RowsLeft(), cur)
    ensures LogInRange(log) && PairsInRange(AllMatches(log), |before|, |ds|)
    ensures Fates(before, ds, frame, AllMatches(log), cur)
    ensures Within(log.third.ColsLeft(), |ds|)
  {
    hide Settled, Lineup, AllMatches, Newborn, Association.RowsLeft, Association.ColsLeft, Split;
    LineupSplits(o, before, ds, log);
    EachMatchedOnce(o, before, ds, log);
    NewbornIs(o, before, ds, log);
    SettledIsFates(o, before, ds, frame, log, cur);
  }

  lemma IsOneUpdate(o: Options, s: Snapshot, ds: seq<Detection>, log: Log, after: seq<Track>, t: Snapshot)
    requires AllShaped(s.tracks) && AllShaped(Bases(s.tracks))
    requires Lineup(o, s.tracks, ds, log) && Cheapest(o, s.tracks, ds, log)
    requires LogInRange(log) && PairsInRange(AllMatches(log), |s.tracks|, |ds|) && Within(log.third.ColsLeft(), |ds|)
    requires Within(Newborn(o, ds, log), |ds|) && Fates(s.tracks, ds, s.frame + 1, AllMatches(log), after)
    requires var all := after + Births(ds, Newborn(o, ds, log), s.nextId, s.frame + 1);
      t == Snapshot(Survivors(o, s.frame + 1, all, |all|), s.frame + 1, s.nextId + |Newborn(o, ds, log)|)
    ensures Advances(o, s, ds, log, after, t)
  {
    hide Lineup, Cheapest, Fates, Newborn, AllMatches, Survivors, AllShaped;
  }

  lemma NewbornAre(o: Options, ds: seq<Detection>, log: Log, candidates: seq<int>)
    requires Within(candidates, |ds|) && candidates == log.third.ColsLeft()
    ensures Newborn(o, ds, log) == Keep(candidates, NewFlags(o, ds))
  {
  }

  lemma BirthsOneMore(ds: seq<Detection>, born: seq<int>, d: int, nextId: int, frame: int)
    requires Within(born, |ds|) && 0 <= d < |ds|
    ensures Births(ds, born + [d], nextId, frame)
      == Births(ds, born, nextId, frame) + [Born(ds[d], nextId + |born|, frame)]
  {
  }

  predicate Aged(o: Options, frame: int, x: Track, y: Track) {
    y == if TooOld(o, frame, x) then x.(state := Removed) else x
  }

  class ByteTracker {
    const options: Options
    const solver: LinearAssignment
    const sqrt: real -> real
    var tracks: seq<Track>
    var frameId: int
    var nextId: int

    ghost predicate Valid()
      reads this
    {
      IsSqrt(sqrt) && KalmanValid(tracks) && NoneRemoved(tracks)
    }

    ghost function Snap(): Snapshot
      reads this
    {
      Snapshot(tracks, frameId, nextId)
    }

    constructor (options: Options, sqrt: real -> real)
      requires IsSqrt(sqrt)
      ensures Valid() && Snap() == FRESH && fresh(solver) && this.options == options && this.sqrt == sqrt
    {
      this.options := options;
      this.sqrt := sqrt;
      solver := new LinearAssignment();
      tracks, frameId, nextId := [], 0, 1;
    }

    /** Forget all tracks; ids and frames start over. */
    method Reset()
      requires IsSqrt(sqrt)
      modifies this
      ensures Valid() && Snap() == FRESH
    {
      tracks, frameId, nextId := [], 0, 1;
    }

    /** The costs, row by row. */
    method FillCosts(rows: seq<int>, cols: seq<int>, ds: seq<Detection>, fuse: bool, ghost p: Problem)
      returns (cost: seq<real>)
      requires AllShaped(tracks) && Within(rows, |tracks|) && Within(cols, |ds|)
      requires p == CostProblem(tracks, ds, rows, cols, p.limit, fuse)
      ensures |cost| == |rows| * |cols|
      ensures p == Problem(|rows|, |cols|, FromRowMajor(cost, |rows|, |cols|), p.limit)
    {
      hide At, Filled, Iou, Kalman.ToBox;
      cost := [];
      NothingFilled(p);
      var r := 0;
      while r < |rows|
        invariant 0 <= r <= |rows| && Filled(p, cost, r, 0)
      {
        var trackBox := Kalman.ToBox(tracks[rows[r]].kalman.mean);
        var c := 0;
        while c < |cols|
          invariant 0 <= c <= |cols| && Filled(p, cost, r, c)
        {
          var d := ds[cols[c]];
          var similarity := Iou(trackBox, d.box);
          if fuse {
            similarity := similarity * d.score;
          }
          FilledOneMore(p, cost, r, c, 1.0 - similarity);
          cost := cost + [1.0 - similarity];
          c := c + 1;
        }
        FilledRow(p, cost, r);
        r := r + 1;
      }
      FilledAll(p, cost);
    }

    /** Fill the cost buffer and solve. */
    method Associate(rows: seq<int>, cols: seq<int>, ds: seq<Detection>, costLimit: real, fuse: bool)
      returns (result: AssignmentResult)
      requires AllShaped(tracks) && Within(rows, |tracks|) && Within(cols, |ds|)
      modifies solver
      ensures var p := CostProblem(tracks, ds, rows, cols, costLimit, fuse);
        Partitions(p, result) && (costLimit <= FORBIDDEN ==> p.Optimal(result.matches))
    {
      hide Partitions, Problem.Optimal, Problem.Cheapest, CostProblem;
      ghost var p := CostProblem(tracks, ds, rows, cols, costLimit, fuse);
      var cost := FillCosts(rows, cols, ds, fuse, p);
      var outcome := solver.Solve(cost, |rows|, |cols|, costLimit);
      result := outcome.result;
    }

    /** Correct the matched tracks. */
    method ApplyMatches(a: Association, ds: seq<Detection>, ghost bases: seq<Track>,
        ghost m: seq<Pair>, ghost lost: seq<int>, ghost gone: seq<int>)
      requires Valid() && a.InRange() && Settled(bases, ds, frameId, m, lost, gone, tracks)
      requires PairsInRange(a.Matches(), |bases|, |ds|) && DistinctPairs(a.Matches())
      requires forall i :: 0 <= i < |a.Matches()| ==>
        var t := a.Matches()[i].0; !MatchesTrack(m, t) && t !in lost && t !in gone
      modifies this`tracks
      ensures Valid() && Settled(bases, ds, frameId, m + a.Matches(), lost, gone, tracks)
    {
      hide Settled, MatchesTrack, Kalman.State.Valid, Kalman.UpdatedBy, Kalman.ToMeasurement, IsSqrt;
      ghost var all := a.Matches();
      assert m + all[..0] == m;
      var i := 0;
      while i < |a.pairs|
        invariant 0 <= i <= |a.pairs| && Valid()
        invariant Settled(bases, ds, frameId, m + all[..i], lost, gone, tracks)
      {
        var t, d := a.rows[a.pairs[i].0], a.cols[a.pairs[i].1];
        assert all[i] == (t, d);
        NotYetMatched(m, all, i);
        WaitingTrack(bases, ds, frameId, m + all[..i], lost, gone, tracks, t);
        var kalman := Kalman.Update(tracks[t].kalman, Kalman.ToMeasurement(ds[d].box), sqrt);
        var y := tracks[t].(kalman := kalman, score := ds[d].score, classId := ds[d].classId,
                            state := Tracked, activated := true, lastFrame := frameId);
        SettleMatch(bases, ds, frameId, m + all[..i], lost, gone, tracks, (t, d), y);
        tracks := tracks[t := y];
        assert m + all[..i] + [(t, d)] == m + all[..i + 1];
        i := i + 1;
      }
      assert all[..|a.pairs|] == all;
    }

    /** Set the state of the tracks an association left over. */
    method Mark(list: seq<int>, remove: bool, ghost bases: seq<Track>, ds: seq<Detection>,
        ghost m: seq<Pair>, ghost lost: seq<int>, ghost gone: seq<int>)
      requires KalmanValid(tracks) && |tracks| == |bases|
      requires Settled(bases, ds, frameId, m, lost, gone, tracks) && Ascending(list, |bases|)
      requires forall i :: 0 <= i < |list| ==> !MatchesTrack(m, list[i]) && list[i] !in lost && list[i] !in gone
      modifies this`tracks
      ensures KalmanValid(tracks) && |tracks| == |bases|
      ensures remove ==> Settled(bases, ds, frameId, m, lost, gone + list, tracks)
      ensures !remove ==> NoneRemoved(old(tracks)) ==> NoneRemoved(tracks)
      ensures !remove ==> Settled(bases, ds, frameId, m, lost + list, gone, tracks)
    {
      hide Settled, MatchesTrack, Kalman.State.Valid;
      assert lost + list[..0] == lost && gone + list[..0] == gone;
      var i := 0;
      while i < |list|
        invariant 0 <= i <= |list| && KalmanValid(tracks) && |tracks| == |bases|
        invariant remove ==> Settled(bases, ds, frameId, m, lost, gone + list[..i], tracks)
        invariant !remove ==> NoneRemoved(old(tracks)) ==> NoneRemoved(tracks)
        invariant !remove ==> Settled(bases, ds, frameId, m, lost + list[..i], gone, tracks)
      {
        var t := list[i];
        ghost var l, g := if remove then lost else lost + list[..i], if remove then gone + list[..i] else gone;
        SettleMark(bases, ds, frameId, m, l, g, tracks, t, remove);
        tracks := tracks[t := tracks[t].(state := if remove then Removed else Lost)];
        assert list[..i + 1] == list[..i] + [t];
        assert gone + list[..i] + [t] == gone + list[..i + 1] && lost + list[..i] + [t] == lost + list[..i + 1];
        i := i + 1;
      }
      assert list[..|list|] == list;
    }

    /** Sort the detections into strong and weak ones. */
    method SplitDetections(ds: seq<Detection>) returns (high: seq<int>, low: seq<int>)
      ensures high == Where(HighFlags(options, ds), |ds|) && low == Where(LowFlags(options, ds), |ds|)
    {
      high, low := [], [];
      var i := 0;
      while i < |ds|
        invariant 0 <= i <= |ds|
        invariant high == Where(HighFlags(options, ds), i) && low == Where(LowFlags(options, ds), i)
      {
        if ds[i].score >= options.highThreshold {
          high := high + [i];
        } else if ds[i].score > options.lowThreshold {
          low := low + [i];
        }
        i := i + 1;
      }
    }

    /** Predict a track of the pool; a lost track's height stops changing first. */
    method PrepareTrack(track: Track) returns (p: Track)
      requires track.kalman.Valid() && !Tentative(track)
      ensures p == Base(track) && p.kalman.Valid() && p.state == track.state
    {
      hide Kalman.Predicted, PositiveSemidefinite, Symmetric, IsSqrt;
      p := track;
      if !track.state.Tracked? {
        p := track.(kalman := track.kalman.(mean := track.kalman.mean[7 := [0.0]]));
      }
      var kalman := Kalman.Predict(p.kalman);
      p := p.(kalman := kalman);
    }

    /** Sort the tracks into the matching pool and the tentative ones, and predict the pool. */
    method PrepareTracks() returns (pool: seq<int>, unconfirmed: seq<int>)
      requires Valid()
      modifies this`tracks
      ensures Valid() && AllShaped(old(tracks))
      ensures tracks == Bases(old(tracks))
      ensures pool == Where(PoolFlags(old(tracks)), |old(tracks)|)
      ensures unconfirmed == Where(TentativeFlags(old(tracks)), |old(tracks)|)
    {
      hide Kalman.State.Valid, Base, IsSqrt, Where;
      ghost var before := tracks;
      NoneYet(PoolFlags(before), TentativeFlags(before));
      ValidIsShaped(before);
      pool, unconfirmed := [], [];
      var t := 0;
      while t < |tracks|
        invariant 0 <= t <= |tracks| == |before| && Valid()
        invariant forall x :: 0 <= x < t ==> tracks[x] == Base(before[x])
        invariant forall x :: t <= x < |before| ==> tracks[x] == before[x]
        invariant pool == Where(PoolFlags(before), t) && unconfirmed == Where(TentativeFlags(before), t)
      {
        var track := tracks[t];
        WhereNext(PoolFlags(before), t);
        WhereNext(TentativeFlags(before), t);
        if track.state.Tracked? && !track.activated {
          unconfirmed := unconfirmed + [t];
          TentativeWaits(track);
        } else if !track.state.Removed? {
          pool := pool + [t];
          track := PrepareTrack(track);
          tracks := tracks[t := track];
        }
        t := t + 1;
      }
      assert tracks == Bases(before);
    }

    /** The tracks of the list that are still tracked. */
    method StillTracked(list: seq<int>) returns (kept: seq<int>)
      requires Within(list, |tracks|)
      ensures kept == Keep(list, TrackedFlags(tracks))
    {
      kept := [];
      var i := 0;
      assert list[..0] == [];
      while i < |list|
        invariant 0 <= i <= |list| && kept == Keep(list[..i], TrackedFlags(tracks))
      {
        assert list[..i + 1][..i] == list[..i];
        if tracks[list[i]].state.Tracked? {
          kept := kept + [list[i]];
        }
        i := i + 1;
      }
      assert list[..|list|] == list;
    }

    /** Start a track from every candidate that is strong enough. */
    method StartTracks(candidates: seq<int>, ds: seq<Detection>)
      requires KalmanValid(tracks) && Within(candidates, |ds|)
      modifies this`tracks, this`nextId
      ensures KalmanValid(tracks)
      ensures Within(Keep(candidates, NewFlags(options, ds)), |ds|)
      ensures tracks == old(tracks) + Births(ds, Keep(candidates, NewFlags(options, ds)), old(nextId), frameId)
      ensures nextId == old(nextId) + |Keep(candidates, NewFlags(options, ds))|
    {
      hide PositiveSemidefinite, Symmetric, Kalman.Initiate, Kalman.ToMeasurement;
      var i := 0;
      assert candidates[..0] == [];
      ghost var kept := [];
      while i < |candidates|
        invariant 0 <= i <= |candidates| && KalmanValid(tracks)
        invariant kept == Keep(candidates[..i], NewFlags(options, ds)) && Within(kept, |ds|)
        invariant tracks == old(tracks) + Births(ds, kept, old(nextId), frameId)
        invariant nextId == old(nextId) + |kept|
      {
        assert candidates[..i + 1][..i] == candidates[..i];
        var d := ds[candidates[i]];
        if !(d.score < options.newTrackThreshold) {
          var kalman := Kalman.Initiate(Kalman.ToMeasurement(d.box));
          Kalman.InitiateIsValid(Kalman.ToMeasurement(d.box));
          BirthsOneMore(ds, kept, candidates[i], old(nextId), frameId);
          tracks := tracks + [Track(nextId, kalman, d.score, d.classId, Tracked, frameId == 1, frameId, frameId)];
          nextId := nextId + 1;
          kept := kept + [candidates[i]];
        }
        i := i + 1;
      }
      assert candidates[..|candidates|] == candidates;
    }

    /** Mark the tracks that have been lost for too long, then drop everything marked. */
    method AgeTracks()
      requires IsSqrt(sqrt) && KalmanValid(tracks)
      modifies this`tracks
      ensures Valid() && tracks == Survivors(options, frameId, old(tracks), |old(tracks)|)
    {
      hide Kalman.State.Valid, IsSqrt, MaxTimeLost;
      ghost var all := tracks;
      var maxTimeLost := MaxTimeLost(options);
      var t := 0;
      while t < |tracks|
        invariant 0 <= t <= |tracks| == |all| && KalmanValid(tracks)
        invariant forall x :: 0 <= x < t ==> Aged(options, frameId, all[x], tracks[x])
        invariant forall x :: t <= x < |all| ==> tracks[x] == all[x]
      {
        var track := tracks[t];
        if track.state.Lost? && frameId - track.lastFrame > maxTimeLost {
          track := track.(state := Removed);
        }
        assert Aged(options, frameId, all[t], track);
        tracks := tracks[t := track];
        t := t + 1;
      }
      var live: seq<Track> := [];
      t := 0;
      while t < |tracks|
        invariant 0 <= t <= |tracks| == |all| && KalmanValid(live) && NoneRemoved(live)
        invariant live == Survivors(options, frameId, all, t)
      {
        assert Aged(options, frameId, all[t], tracks[t]);
        if !tracks[t].state.Removed? {
          live := live + [tracks[t]];
        }
        t := t + 1;
      }
      tracks := live;
    }

    /** List the confirmed tracks seen in this frame. */
    method Report() returns (out: seq<TrackedObject>)
      requires AllShaped(tracks)
      ensures out == Reports(tracks, frameId, |tracks|)
      ensures forall x :: x in out <==>
        exists t :: 0 <= t < |tracks| && Reported(tracks[t]) && x == ReportOf(tracks[t], frameId)
    {
      ReportsAreOfReported(tracks, frameId);
      out := [];
      var t := 0;
      while t < |tracks|
        invariant 0 <= t <= |tracks| && out == Reports(tracks, frameId, t)
      {
        var track := tracks[t];
        if track.state.Tracked? && track.activated {
          out := out + [TrackedObject(track.id, Kalman.ToBox(track.kalman.mean), track.score, track.classId,
                                      frameId - track.startFrame + 1)];
        }
        t := t + 1;
      }
    }

    /** The members of `list` at the positions `at`. */
    method Collect(list: seq<int>, at: seq<int>) returns (r: seq<int>)
      requires Within(at, |list|)
      ensures r == Pick(list, at)
    {
      r := [];
      var i := 0;
      while i < |at|
        invariant 0 <= i <= |at| && |r| == i && forall j :: 0 <= j < i ==> r[j] == list[at[j]]
      {
        r := r + [list[at[i]]];
        i := i + 1;
      }
    }

    /** One association: solve, correct the matched tracks, and list what is left over. */
    method AssociateAndApply(rows: seq<int>, cols: seq<int>, ds: seq<Detection>, costLimit: real, fuse: bool,
                             ghost bases: seq<Track>, ghost m: seq<Pair>, ghost lost: seq<int>, ghost gone: seq<int>)
      returns (a: Association, rowsLeft: seq<int>, colsLeft: seq<int>)
      requires Valid() && Settled(bases, ds, frameId, m, lost, gone, tracks)
      requires AllShaped(bases) && |tracks| == |bases| && Ascending(rows, |bases|) && Ascending(cols, |ds|)
      requires forall i :: 0 <= i < |rows| ==> !MatchesTrack(m, rows[i]) && rows[i] !in lost && rows[i] !in gone
      modifies this`tracks, solver
      ensures Valid() && |tracks| == |bases|
      ensures a.rows == rows && a.cols == cols && rowsLeft == a.RowsLeft() && colsLeft == a.ColsLeft()
      ensures Associates(bases, ds, costLimit, fuse, a) && a.InRange() && DistinctPairs(a.pairs)
      ensures Settled(bases, ds, frameId, m + a.Matches(), lost, gone, tracks)
    {
      hide Settled, MatchesTrack, Kalman.State.Valid, IsSqrt, Problem.Optimal, Missing, Dissimilarity;
      ValidIsShaped(tracks);
      forall i | 0 <= i < |rows| ensures tracks[rows[i]] == bases[rows[i]] {
        WaitingTrack(bases, ds, frameId, m, lost, gone, tracks, rows[i]);
      }
      SameProblem(bases, tracks, ds, rows, cols, costLimit, fuse);
      var result := Associate(rows, cols, ds, costLimit, fuse);
      a := Association(rows, cols, result.matches);
      AssociatesIsGated(bases, ds, costLimit, fuse, a);
      AssociationSplits(a, |bases|, |ds|);
      MissingAscends(RowsOf(a.pairs), |rows|);
      MissingAscends(ColsOf(a.pairs), |cols|);
      rowsLeft := Collect(rows, result.unmatchedRows);
      colsLeft := Collect(cols, result.unmatchedCols);
      MatchesWithin(a, |bases|, |ds|);
      ApplyMatches(a, ds, bases, m, lost, gone);
      SettledLength(bases, ds, frameId, m + a.Matches(), lost, gone, tracks);
    }

    /** The three associations, and the marks they leave. */
    method Match(ds: seq<Detection>) returns (log: Log, candidates: seq<int>)
      requires Valid()
      modifies this`tracks, solver
      ensures IsSqrt(sqrt) && KalmanValid(tracks) && NoneRemoved(old(tracks))
      ensures AllShaped(old(tracks)) && AllShaped(Bases(old(tracks)))
      ensures Lineup(options, old(tracks), ds, log) && Cheapest(options, old(tracks), ds, log) && Gated(log)
      ensures Settled(Bases(old(tracks)), ds, frameId, AllMatches(log), log.second.RowsLeft(),
        log.third.RowsLeft(), tracks)
      ensures candidates == log.third.ColsLeft()
    {
      hide Settled, MatchesTrack, Kalman.State.Valid, IsSqrt, Where, Keep, Associates, Base,
        DistinctPairs, AllShaped, Association.Matches, Association.RowsLeft, Association.ColsLeft,
        Ascending;
      ghost var before := tracks;
      var high, low := SplitDetections(ds);
      var pool, unconfirmed := PrepareTracks();
      ghost var bases := tracks;
      ListsAscend(options, before, ds);
      ValidIsShaped(tracks);
      NothingSettled(bases, ds, frameId);

      var first, rows1, cols1 := AssociateAndApply(pool, high, ds, options.matchThreshold, options.fuseScore,
        bases, [], [], []);
      ghost var m1 := first.Matches();
      assert [] + m1 == m1;
      AssociationSplits(first, |bases|, |ds|);
      RemainingAreWaiting(before, bases, ds, frameId, first, tracks);
      var remaining := StillTracked(rows1);

      var second, rows2, cols2 := AssociateAndApply(remaining, low, ds, SECOND_STAGE_COST_LIMIT, false,
        bases, m1, [], []);
      ghost var m2 := m1 + second.Matches();
      AssociationSplits(second, |bases|, |ds|);
      LeftoversAreWaiting(before, first, second);
      Mark(rows2, false, bases, ds, m2, [], []);
      assert [] + rows2 == rows2;
      TentativeAreWaiting(before, first, second);

      var third, rows3, cols3 := AssociateAndApply(unconfirmed, cols1, ds, UNCONFIRMED_COST_LIMIT, options.fuseScore,
        bases, m2, rows2, []);
      AssociationSplits(third, |bases|, |ds|);
      RejectsAreWaiting(before, first, second, third);
      Mark(rows3, true, bases, ds, m2 + third.Matches(), rows2, []);
      assert [] + rows3 == rows3;
      log := Log(first, second, third);
      candidates := cols3;
    }

    /** One frame: a step of the relation `Advances`, reporting the confirmed tracks seen in it. */
    method Update(ds: seq<Detection>) returns (out: seq<TrackedObject>, ghost log: Log, ghost after: seq<Track>)
      requires Valid()
      modifies this, solver
      ensures Valid() && AllShaped(tracks)
      ensures Advances(options, old(Snap()), ds, log, after, Snap())
      ensures out == Reports(tracks, frameId, |tracks|)
      ensures Healthy(options, old(Snap())) ==> Healthy(options, Snap()) && |out| <= |ds|
    {
      hide Healthy, Advances, Reports, Settled, Kalman.State.Valid, IsSqrt, Lineup, Cheapest, Fates, Gated,
        AllMatches, Newborn,
        Keep, Survivors, NewFlags, Association.RowsLeft, Association.ColsLeft, AllShaped, Born;
      ghost var before, start := tracks, Snap();
      frameId := frameId + 1;
      var theLog, candidates := Match(ds);
      log, after := theLog, tracks;
      FatesFollow(options, before, ds, frameId, log, after);
      StartTracks(candidates, ds);
      AgeTracks();
      ValidIsShaped(tracks);
      out := Report();
      NewbornAre(options, ds, log, candidates);
      IsOneUpdate(options, start, ds, log, after, Snap());
      if Healthy(options, start) {
        UpdateKeepsHealth(options, start, ds, log, after, Snap());
        ghost var sources := ReportedObjectsInject(options, start, ds, log, after, Snap(), out);
      }
    }
  }
}
