/**
  What holds of every run of updates: each detection and each track is used at most once, ids are
  never reused, tentative tracks are one frame old, lost tracks are young enough, and a track that
  comes back has not been away for too long.
 */
module TrackHistory {
  import opened Detections
  import opened GatedMatching
  import opened LinearAssignment
  import opened Sums
  import opened Tracks
  import Kalman = BoxKalmanFilter

  // ---------- each track and each detection at most once ----------

  ghost predicate DistinctPairs(m: seq<Pair>) {
    forall i, j :: 0 <= i < j < |m| ==> m[i].0 != m[j].0 && m[i].1 != m[j].1
  }

  /** An association splits its lists into matched members and members left over. */
  lemma AssociationSplits(a: Association, n: nat, k: nat)
    requires Ascending(a.rows, n) && Ascending(a.cols, k) && a.InRange() && DistinctPairs(a.pairs)
    ensures DistinctPairs(a.Matches())
    ensures forall i :: 0 <= i < |a.Matches()| ==> a.Matches()[i].0 in a.rows && a.Matches()[i].1 in a.cols
    ensures Ascending(a.RowsLeft(), n) && Ascending(a.ColsLeft(), k)
    ensures forall t :: t in a.RowsLeft() <==> t in a.rows && !MatchesTrack(a.Matches(), t)
    ensures forall d :: d in a.ColsLeft() <==> d in a.cols && !MatchesDetection(a.Matches(), d)
  {
    hide Association.Matches, Association.RowsLeft, Association.ColsLeft;
    MatchesAreDistinct(a, n, k);
    RowsSplit(a, n);
    ColsSplit(a, k);
  }

  lemma MatchesAreDistinct(a: Association, n: nat, k: nat)
    requires Ascending(a.rows, n) && Ascending(a.cols, k) && a.InRange() && DistinctPairs(a.pairs)
    ensures DistinctPairs(a.Matches())
    ensures forall i :: 0 <= i < |a.Matches()| ==> a.Matches()[i].0 in a.rows && a.Matches()[i].1 in a.cols
  {
    var m := a.Matches();
    forall i, j | 0 <= i < j < |m| ensures m[i].0 != m[j].0 && m[i].1 != m[j].1 {
      assert a.pairs[i].0 != a.pairs[j].0 && a.pairs[i].1 != a.pairs[j].1;
    }
  }

  lemma RowsSplit(a: Association, n: nat)
    requires Ascending(a.rows, n) && a.InRange()
    ensures Ascending(a.RowsLeft(), n)
    ensures forall t :: t in a.RowsLeft() <==> t in a.rows && !MatchesTrack(a.Matches(), t)
  {
    var m, taken := a.Matches(), RowsOf(a.pairs);
    MissingAscends(taken, |a.rows|);
    MissingIsComplement(taken, |a.rows|);
    EndsOf(a.pairs);
    PickIs(a.rows, Missing(taken, |a.rows|), n);
    forall r | 0 <= r < |a.rows| ensures MatchesTrack(m, a.rows[r]) <==> r in taken {
      if MatchesTrack(m, a.rows[r]) {
        var i :| 0 <= i < |m| && m[i].0 == a.rows[r];
        assert a.pairs[i].0 == r;
      }
      if r in taken {
        var i :| 0 <= i < |a.pairs| && a.pairs[i].0 == r;
        assert m[i].0 == a.rows[r];
      }
    }
  }

  lemma ColsSplit(a: Association, k: nat)
    requires Ascending(a.cols, k) && a.InRange()
    ensures Ascending(a.ColsLeft(), k)
    ensures forall d :: d in a.ColsLeft() <==> d in a.cols && !MatchesDetection(a.Matches(), d)
  {
    var m, taken := a.Matches(), ColsOf(a.pairs);
    MissingAscends(taken, |a.cols|);
    MissingIsComplement(taken, |a.cols|);
    EndsOf(a.pairs);
    PickIs(a.cols, Missing(taken, |a.cols|), k);
    forall c | 0 <= c < |a.cols| ensures MatchesDetection(m, a.cols[c]) <==> c in taken {
      if MatchesDetection(m, a.cols[c]) {
        var i :| 0 <= i < |m| && m[i].1 == a.cols[c];
        assert a.pairs[i].1 == c;
      }
      if c in taken {
        var i :| 0 <= i < |a.pairs| && a.pairs[i].1 == c;
        assert m[i].1 == a.cols[c];
      }
    }
  }

  /** What the lineup says about the three associations, member by member. */
  ghost predicate Split(o: Options, before: seq<Track>, ds: seq<Detection>, log: Log) {
    && LogInRange(log)
    && DistinctPairs(log.first.Matches()) && DistinctPairs(log.second.Matches()) && DistinctPairs(log.third.Matches())
    && (forall i :: 0 <= i < |log.first.Matches()| ==>
          Takes(before, ds, log.first.Matches()[i], true, false) && IsHigh(o, ds[log.first.Matches()[i].1]))
    && (forall i :: 0 <= i < |log.second.Matches()| ==>
          Takes(before, ds, log.second.Matches()[i], true, true) && IsLow(o, ds[log.second.Matches()[i].1])
          && !MatchesTrack(log.first.Matches(), log.second.Matches()[i].0))
    && (forall i :: 0 <= i < |log.third.Matches()| ==>
          Takes(before, ds, log.third.Matches()[i], false, true) && IsHigh(o, ds[log.third.Matches()[i].1])
          && !MatchesDetection(log.first.Matches(), log.third.Matches()[i].1))
  }

  /** The pair is in range; the track is of the pool, or tentative; it is tracked, if that is asked for. */
  ghost predicate Takes(before: seq<Track>, ds: seq<Detection>, m: Pair, pool: bool, tracked: bool) {
    && 0 <= m.0 < |before| && 0 <= m.1 < |ds|
    && (if pool then !Tentative(before[m.0]) else Tentative(before[m.0]))
    && (tracked ==> before[m.0].state.Tracked?)
  }

  ghost predicate Gated(log: Log) {
    LogInRange(log) && DistinctPairs(log.first.pairs) && DistinctPairs(log.second.pairs)
      && DistinctPairs(log.third.pairs)
  }

  lemma FirstSplits(o: Options, before: seq<Track>, ds: seq<Detection>, log: Log)
    requires Lineup(o, before, ds, log) && Gated(log)
    ensures DistinctPairs(log.first.Matches())
    ensures forall i :: 0 <= i < |log.first.Matches()| ==>
      Takes(before, ds, log.first.Matches()[i], true, false) && IsHigh(o, ds[log.first.Matches()[i].1])
    ensures Ascending(log.first.RowsLeft(), |before|) && Ascending(log.first.ColsLeft(), |ds|)
    ensures forall t :: t in log.first.RowsLeft() <==>
      0 <= t < |before| && PoolFlags(before)[t] && !MatchesTrack(log.first.Matches(), t)
    ensures forall d :: d in log.first.ColsLeft() <==>
      0 <= d < |ds| && IsHigh(o, ds[d]) && !MatchesDetection(log.first.Matches(), d)
  {
    hide Association.Matches, Association.RowsLeft, Association.ColsLeft, Where, Keep, MatchesTrack,
      MatchesDetection, DistinctPairs;
    WhereIs(PoolFlags(before), |before|);
    WhereIs(HighFlags(o, ds), |ds|);
    AssociationSplits(log.first, |before|, |ds|);
  }

  lemma SecondSplits(o: Options, before: seq<Track>, ds: seq<Detection>, log: Log)
    requires Lineup(o, before, ds, log) && Gated(log)
    ensures DistinctPairs(log.second.Matches())
    ensures forall i :: 0 <= i < |log.second.Matches()| ==>
      Takes(before, ds, log.second.Matches()[i], true, true) && IsLow(o, ds[log.second.Matches()[i].1])
      && !MatchesTrack(log.first.Matches(), log.second.Matches()[i].0)
    ensures forall t :: t in log.second.RowsLeft() <==>
      && 0 <= t < |before| && PoolFlags(before)[t] && before[t].state.Tracked?
      && !MatchesTrack(log.first.Matches(), t) && !MatchesTrack(log.second.Matches(), t)
    ensures Ascending(log.second.RowsLeft(), |before|)
  {
    hide Association.Matches, Association.RowsLeft, Association.ColsLeft, Where, Keep, MatchesTrack,
      MatchesDetection, DistinctPairs;
    FirstSplits(o, before, ds, log);
    KeepIs(log.first.RowsLeft(), TrackedFlags(before));
    WhereIs(LowFlags(o, ds), |ds|);
    AssociationSplits(log.second, |before|, |ds|);
  }

  lemma ThirdSplits(o: Options, before: seq<Track>, ds: seq<Detection>, log: Log)
    requires Lineup(o, before, ds, log) && Gated(log)
    ensures DistinctPairs(log.third.Matches())
    ensures forall i :: 0 <= i < |log.third.Matches()| ==>
      Takes(before, ds, log.third.Matches()[i], false, true) && IsHigh(o, ds[log.third.Matches()[i].1])
      && !MatchesDetection(log.first.Matches(), log.third.Matches()[i].1)
    ensures forall t :: t in log.third.RowsLeft() <==>
      0 <= t < |before| && Tentative(before[t]) && !MatchesTrack(log.third.Matches(), t)
    ensures Ascending(log.third.RowsLeft(), |before|)
    ensures Ascending(log.third.ColsLeft(), |ds|)
    ensures forall d :: d in log.third.ColsLeft() <==>
      && 0 <= d < |ds| && IsHigh(o, ds[d])
      && !MatchesDetection(log.first.Matches(), d) && !MatchesDetection(log.third.Matches(), d)
  {
    hide Association.Matches, Association.RowsLeft, Association.ColsLeft, Where, Keep, MatchesTrack,
      MatchesDetection, DistinctPairs;
    FirstSplits(o, before, ds, log);
    WhereIs(TentativeFlags(before), |before|);
    AssociationSplits(log.third, |before|, |ds|);
  }

  lemma LineupSplits(o: Options, before: seq<Track>, ds: seq<Detection>, log: Log)
    requires Lineup(o, before, ds, log) && Gated(log)
    ensures Split(o, before, ds, log)
  {
    hide Lineup, Association.Matches, Takes, DistinctPairs, MatchesTrack, MatchesDetection, IsHigh, IsLow;
    FirstSplits(o, before, ds, log);
    SecondSplits(o, before, ds, log);
    ThirdSplits(o, before, ds, log);
  }

  /** Over all three associations no track and no detection is matched twice. */
  lemma EachMatchedOnce(o: Options, before: seq<Track>, ds: seq<Detection>, log: Log)
    requires Split(o, before, ds, log)
    ensures DistinctPairs(AllMatches(log)) && PairsInRange(AllMatches(log), |before|, |ds|)
  {
    hide Association.Matches, IsHigh;
    var a, b, c := log.first.Matches(), log.second.Matches(), log.third.Matches();
    var m := AllMatches(log);
    forall i, j | 0 <= i < j < |m| ensures m[i].0 != m[j].0 && m[i].1 != m[j].1 {
      if i < |a| {
        if j >= |a| + |b| {
          assert m[j] == c[j - |a| - |b|];
        } else if j >= |a| {
          assert m[j] == b[j - |a|];
        }
      } else if i < |a| + |b| {
        assert m[i] == b[i - |a|];
        if j >= |a| + |b| {
          assert m[j] == c[j - |a| - |b|];
        }
      }
    }
  }

  lemma MatchedInAny(log: Log, d: int)
    requires LogInRange(log)
    ensures MatchesDetection(AllMatches(log), d) <==>
      MatchesDetection(log.first.Matches(), d) || MatchesDetection(log.second.Matches(), d)
        || MatchesDetection(log.third.Matches(), d)
  {
    hide Association.Matches;
    var a, b, c, m := log.first.Matches(), log.second.Matches(), log.third.Matches(), AllMatches(log);
    if i :| 0 <= i < |a| && a[i].1 == d { assert m[i].1 == d; }
    if i :| 0 <= i < |b| && b[i].1 == d { assert m[|a| + i].1 == d; }
    if i :| 0 <= i < |c| && c[i].1 == d { assert m[|a| + |b| + i].1 == d; }
  }

  lemma TrackInAny(log: Log, t: int)
    requires LogInRange(log)
    ensures MatchesTrack(AllMatches(log), t) <==>
      MatchesTrack(log.first.Matches(), t) || MatchesTrack(log.second.Matches(), t)
        || MatchesTrack(log.third.Matches(), t)
  {
    hide Association.Matches;
    var a, b, c, m := log.first.Matches(), log.second.Matches(), log.third.Matches(), AllMatches(log);
    if i :| 0 <= i < |a| && a[i].0 == t { assert m[i].0 == t; }
    if i :| 0 <= i < |b| && b[i].0 == t { assert m[|a| + i].0 == t; }
    if i :| 0 <= i < |c| && c[i].0 == t { assert m[|a| + |b| + i].0 == t; }
  }

  /** New tracks start from exactly the strong detections nothing was matched with. */
  lemma NewbornIs(o: Options, before: seq<Track>, ds: seq<Detection>, log: Log)
    requires Lineup(o, before, ds, log) && Gated(log)
    ensures Within(log.third.ColsLeft(), |ds|)
    ensures Ascending(Newborn(o, ds, log), |ds|)
    ensures forall d :: d in Newborn(o, ds, log) <==>
      0 <= d < |ds| && IsHigh(o, ds[d]) && ds[d].score >= o.newTrackThreshold && !MatchesDetection(AllMatches(log), d)
  {
    hide Association.Matches, Association.ColsLeft, Association.RowsLeft, Lineup, MatchesDetection, Keep;
    LineupSplits(o, before, ds, log);
    ThirdSplits(o, before, ds, log);
    KeepIs(log.third.ColsLeft(), NewFlags(o, ds));
    forall d ensures MatchesDetection(AllMatches(log), d) <==>
      MatchesDetection(log.first.Matches(), d) || MatchesDetection(log.second.Matches(), d)
        || MatchesDetection(log.third.Matches(), d)
    {
      MatchedInAny(log, d);
    }
    forall d | MatchesDetection(log.second.Matches(), d) ensures 0 <= d < |ds| && !IsHigh(o, ds[d]) {
      SecondIsWeak(o, before, ds, log, d);
    }
  }

  lemma SecondIsWeak(o: Options, before: seq<Track>, ds: seq<Detection>, log: Log, d: int)
    requires Split(o, before, ds, log) && MatchesDetection(log.second.Matches(), d)
    ensures 0 <= d < |ds| && !IsHigh(o, ds[d])
  {
    hide Association.Matches, DistinctPairs, MatchesTrack;
  }

  lemma AssociatesIsGated(tracks: seq<Track>, ds: seq<Detection>, limit: real, fuse: bool, a: Association)
    requires AllShaped(tracks) && Associates(tracks, ds, limit, fuse, a)
    ensures a.InRange() && DistinctPairs(a.pairs)
  {
    hide Problem.Optimal, Dissimilarity;
    var p := CostProblem(tracks, ds, a.rows, a.cols, limit, fuse);
    forall i | 0 <= i < |a.pairs| ensures 0 <= a.pairs[i].0 < |a.rows| && 0 <= a.pairs[i].1 < |a.cols| {
      assert p.InRange(a.pairs[i]);
    }
  }

  /**
    In one update no track is matched twice, no detection is used twice, and every strong
    detection nothing was matched with, if it is strong enough, starts a track.
   */
  lemma EachUsedOnce(o: Options, s: Snapshot, ds: seq<Detection>, log: Log, after: seq<Track>, t: Snapshot)
    requires Advances(o, s, ds, log, after, t)
    ensures LogInRange(log) && DistinctPairs(AllMatches(log))
    ensures Within(log.third.ColsLeft(), |ds|) && Ascending(Newborn(o, ds, log), |ds|)
    ensures forall d :: d in Newborn(o, ds, log) <==>
      0 <= d < |ds| && IsHigh(o, ds[d]) && ds[d].score >= o.newTrackThreshold && !MatchesDetection(AllMatches(log), d)
  {
    hide Associates, Lineup, Fates, Newborn, AllMatches, Survivors, Association.ColsLeft,
      DistinctPairs, MatchesDetection, IsHigh;
    AssociatesIsGated(Bases(s.tracks), ds, o.matchThreshold, o.fuseScore, log.first);
    AssociatesIsGated(Bases(s.tracks), ds, SECOND_STAGE_COST_LIMIT, false, log.second);
    AssociatesIsGated(Bases(s.tracks), ds, UNCONFIRMED_COST_LIMIT, o.fuseScore, log.third);
    LineupSplits(o, s.tracks, ds, log);
    EachMatchedOnce(o, s.tracks, ds, log);
    NewbornIs(o, s.tracks, ds, log);
  }

  // ---------- one track, one update ----------

  /** What is known of a track between updates. */
  ghost predicate Sane(o: Options, frame: int, nextId: int, x: Track) {
    && 1 <= x.id < nextId && 1 <= x.startFrame <= x.lastFrame <= frame
    && !x.state.Removed?
    && (x.state.Tracked? ==> x.lastFrame == frame)
    && (Tentative(x) ==> x.startFrame == frame)
    && (x.state.Lost? ==> x.activated && x.lastFrame < frame && frame - x.lastFrame <= MaxTimeLost(o))
  }

  /** y is the same track one update later: seen again, or lost since it was last seen. */
  ghost predicate Continues(x: Track, frame: int, y: Track) {
    && y.id == x.id && y.startFrame == x.startFrame
    && (Reported(y) ==> y.lastFrame == frame)
    && (!Reported(y) ==> y.state.Lost? && x.activated && y.lastFrame == x.lastFrame)
    && y.activated
  }

  lemma FateContinues(o: Options, frame: int, nextId: int, nextId': int, x: Track, ds: seq<Detection>,
      d: int, y: Track)
    requires Sane(o, frame, nextId, x) && x.kalman.Shaped() && Base(x).kalman.Shaped() && nextId <= nextId'
    requires (0 <= d < |ds| && MatchedTo(Base(x), ds[d], frame + 1, y)) || y == Unmatched(x)
    requires !Dies(o, frame + 1, y)
    ensures Sane(o, frame + 1, nextId', y) && Continues(x, frame + 1, y)
  {
    hide Kalman.UpdatedBy, Kalman.Predicted;
  }

  lemma NewbornIsSane(o: Options, frame: int, nextId: int, d: Detection, id: int)
    requires 0 <= frame && 1 <= id < nextId
    ensures Sane(o, frame, nextId, Born(d, id, frame)) || frame == 0
    ensures Born(d, id, frame).id == id && Born(d, id, frame).startFrame == frame
  {
  }

  // ---------- survivors ----------

  function LiveFlags(o: Options, frame: int, all: seq<Track>): (f: seq<bool>)
    ensures |f| == |all| && forall t :: 0 <= t < |all| ==> f[t] == !Dies(o, frame, all[t])
  {
    seq(|all|, t requires 0 <= t < |all| => !Dies(o, frame, all[t]))
  }

  /** Survivors keep their order: they are the tracks whose flag is set. */
  lemma {:induction false} SurvivorsArePicked(o: Options, frame: int, all: seq<Track>, n: nat)
    requires n <= |all|
    ensures var w := Where(LiveFlags(o, frame, all), n); var s := Survivors(o, frame, all, n);
      |s| == |w| && forall q :: 0 <= q < |s| ==> 0 <= w[q] < n && s[q] == all[w[q]]
  {
    hide Dies;
    if n > 0 {
      SurvivorsArePicked(o, frame, all, n - 1);
      var flags := LiveFlags(o, frame, all);
      var w, s := Where(flags, n - 1), Survivors(o, frame, all, n - 1);
      if flags[n - 1] {
        assert Where(flags, n) == w + [n - 1] && Survivors(o, frame, all, n) == s + [all[n - 1]];
      } else {
        assert Where(flags, n) == w && Survivors(o, frame, all, n) == s;
      }
    }
  }

  /** Where survivor q stood in the list before ageing. */
  lemma SurvivorAt(o: Options, frame: int, all: seq<Track>, q: nat) returns (p: nat)
    requires q < |Survivors(o, frame, all, |all|)|
    ensures p < |all| && Survivors(o, frame, all, |all|)[q] == all[p] && !Dies(o, frame, all[p])
  {
    hide Dies;
    SurvivorsArePicked(o, frame, all, |all|);
    var w := Where(LiveFlags(o, frame, all), |all|);
    WhereIs(LiveFlags(o, frame, all), |all|);
    p := w[q];
    assert p in w;
  }

  ghost predicate IdsIncrease(tracks: seq<Track>) {
    forall i, j :: 0 <= i < j < |tracks| ==> tracks[i].id < tracks[j].id
  }

  lemma SurvivorsIncrease(o: Options, frame: int, all: seq<Track>)
    requires IdsIncrease(all)
    ensures IdsIncrease(Survivors(o, frame, all, |all|))
  {
    hide Dies;
    SurvivorsArePicked(o, frame, all, |all|);
    WhereIs(LiveFlags(o, frame, all), |all|);
    var s, w := Survivors(o, frame, all, |all|), Where(LiveFlags(o, frame, all), |all|);
    forall i, j | 0 <= i < j < |s| ensures s[i].id < s[j].id {
      assert w[i] < w[j];
    }
  }

  // ---------- one update of the list ----------

  ghost predicate Healthy(o: Options, s: Snapshot) {
    && 0 <= s.frame && 1 <= s.nextId && IdsIncrease(s.tracks)
    && forall t :: 0 <= t < |s.tracks| ==> Sane(o, s.frame, s.nextId, s.tracks[t])
  }

  /** Track t of the old list, after the associations. */
  lemma FateOf(before: seq<Track>, ds: seq<Detection>, frame: int, m: seq<Pair>, after: seq<Track>,
      t: nat) returns (d: int)
    requires AllShaped(before) && AllShaped(Bases(before)) && PairsInRange(m, |before|, |ds|)
    requires Fates(before, ds, frame, m, after) && t < |before|
    ensures |after| == |before| && before[t].kalman.Shaped() && Base(before[t]).kalman.Shaped()
    ensures (0 <= d < |ds| && MatchedTo(Base(before[t]), ds[d], frame, after[t])) || after[t] == Unmatched(before[t])
    ensures after[t].id == before[t].id
    ensures MatchesTrack(m, t) ==>
      exists i :: 0 <= i < |m| && m[i] == (t, d) && MatchedTo(Base(before[t]), ds[d], frame, after[t])
  {
    hide Kalman.UpdatedBy, Kalman.Predicted, Base, Unmatched;
    assert Bases(before)[t] == Base(before[t]);
    BaseKeepsId(before[t]);
    if MatchesTrack(m, t) {
      var i :| 0 <= i < |m| && m[i].0 == t;
      d := m[i].1;
      assert m[i] == (t, d);
      assert MatchedTo(Bases(before)[m[i].0], ds[m[i].1], frame, after[m[i].0]);
    } else {
      d := -1;
    }
  }

  lemma BaseKeepsId(x: Track)
    requires x.kalman.Shaped()
    ensures Base(x).id == x.id && Unmatched(x).id == x.id
  {
    hide Kalman.Predicted;
  }

  lemma AfterKeepsIds(before: seq<Track>, ds: seq<Detection>, frame: int, m: seq<Pair>, after: seq<Track>)
    requires AllShaped(before) && AllShaped(Bases(before)) && PairsInRange(m, |before|, |ds|)
    requires Fates(before, ds, frame, m, after)
    ensures |after| == |before| && forall t :: 0 <= t < |before| ==> after[t].id == before[t].id
  {
    hide Fates, MatchedTo, Base, Unmatched;
    forall t | 0 <= t < |before| ensures |after| == |before| && after[t].id == before[t].id {
      var d := FateOf(before, ds, frame, m, after, t);
    }
    FatesLength(before, ds, frame, m, after);
  }

  lemma FatesLength(before: seq<Track>, ds: seq<Detection>, frame: int, m: seq<Pair>, after: seq<Track>)
    requires AllShaped(before) && AllShaped(Bases(before)) && PairsInRange(m, |before|, |ds|)
    requires Fates(before, ds, frame, m, after)
    ensures |after| == |before|
  {
  }

  /** An update seen from one of its results: an old track going on, or a new one. */
  ghost predicate Comes(o: Options, s: Snapshot, t: Snapshot, y: Track) {
    || (exists p :: 0 <= p < |s.tracks| && Continues(s.tracks[p], t.frame, y))
    || (y.id >= s.nextId && y.startFrame == t.frame == y.lastFrame && y.state.Tracked?)
  }

  lemma ResultComes(o: Options, s: Snapshot, ds: seq<Detection>, log: Log, after: seq<Track>, t: Snapshot, q: nat)
    requires Healthy(o, s) && Advances(o, s, ds, log, after, t) && q < |t.tracks|
    ensures Sane(o, t.frame, t.nextId, t.tracks[q]) && Comes(o, s, t, t.tracks[q])
  {
    hide Lineup, Cheapest, Association.Matches, Kalman.UpdatedBy, Kalman.Predicted, Fates, MatchedTo,
      Unmatched, Base, Dies, Sane, Newborn, AllMatches, Survivors, Association.ColsLeft, Born;
    var born := Births(ds, Newborn(o, ds, log), s.nextId, s.frame + 1);
    var all := after + born;
    var p := SurvivorAt(o, s.frame + 1, all, q);
    FatesLength(s.tracks, ds, s.frame + 1, AllMatches(log), after);
    if p < |s.tracks| {
      var d := FateOf(s.tracks, ds, s.frame + 1, AllMatches(log), after, p);
      FateContinues(o, s.frame, s.nextId, t.nextId, s.tracks[p], ds, d, all[p]);
    } else {
      var k := p - |after|;
      assert all[p] == born[k];
      NewbornIsSane(o, s.frame + 1, t.nextId, ds[Newborn(o, ds, log)[k]], s.nextId + k);
      NewbornIsFresh(ds[Newborn(o, ds, log)[k]], s.nextId + k, s.frame + 1);
    }
  }

  lemma NewbornIsFresh(d: Detection, id: int, frame: int)
    ensures Born(d, id, frame).lastFrame == frame && Born(d, id, frame).state.Tracked?
  {
  }

  lemma AllIdsIncrease(o: Options, s: Snapshot, ds: seq<Detection>, log: Log, after: seq<Track>, t: Snapshot)
    requires Healthy(o, s) && Advances(o, s, ds, log, after, t)
    ensures IdsIncrease(after + Births(ds, Newborn(o, ds, log), s.nextId, s.frame + 1))
  {
    hide Lineup, Cheapest, Fates, Newborn, AllMatches, Survivors, Association.ColsLeft;
    AfterKeepsIds(s.tracks, ds, s.frame + 1, AllMatches(log), after);
    var all := after + Births(ds, Newborn(o, ds, log), s.nextId, s.frame + 1);
    forall i, j | 0 <= i < j < |all| ensures all[i].id < all[j].id {
      if j < |after| {
        assert all[i].id == s.tracks[i].id && all[j].id == s.tracks[j].id;
      } else if i < |after| {
        assert all[i].id == s.tracks[i].id && Sane(o, s.frame, s.nextId, s.tracks[i]);
      }
    }
  }

  /** Every update keeps the track list healthy. */
  lemma UpdateKeepsHealth(o: Options, s: Snapshot, ds: seq<Detection>, log: Log, after: seq<Track>, t: Snapshot)
    requires Healthy(o, s) && Advances(o, s, ds, log, after, t)
    ensures Healthy(o, t) && t.frame == s.frame + 1 && t.nextId >= s.nextId
  {
    hide Lineup, Cheapest, Fates, Sane, Newborn, AllMatches, Survivors, Association.ColsLeft, IdsIncrease;
    forall q | 0 <= q < |t.tracks| ensures Sane(o, t.frame, t.nextId, t.tracks[q]) {
      ResultComes(o, s, ds, log, after, t, q);
    }
    AllIdsIncrease(o, s, ds, log, after, t);
    SurvivorsIncrease(o, s.frame + 1, after + Births(ds, Newborn(o, ds, log), s.nextId, s.frame + 1));
  }

  // ---------- runs ----------

  ghost predicate Reaches(o: Options, s: Snapshot, t: Snapshot) {
    exists ds, log, after :: Advances(o, s, ds, log, after, t)
  }

  const FRESH := Snapshot([], 0, 1)

  /** The snapshots between updates, from a reset on. */
  ghost predicate History(o: Options, ss: seq<Snapshot>) {
    |ss| > 0 && ss[0] == FRESH && forall k :: 0 <= k < |ss| - 1 ==> Reaches(o, ss[k], ss[k + 1])
  }

  /** Every update of a tracker makes its history one snapshot longer. */
  lemma UpdateExtendsHistory(o: Options, ss: seq<Snapshot>, ds: seq<Detection>, log: Log,
      after: seq<Track>, t: Snapshot)
    requires History(o, ss) && Advances(o, ss[|ss| - 1], ds, log, after, t)
    ensures History(o, ss + [t])
  {
    hide Advances;
    var tt := ss + [t];
    forall k | 0 <= k < |tt| - 1 ensures Reaches(o, tt[k], tt[k + 1]) {
      if k < |ss| - 1 {
        assert Reaches(o, ss[k], ss[k + 1]);
      }
    }
  }

  lemma ReachKeepsHealth(o: Options, s: Snapshot, t: Snapshot)
    requires Healthy(o, s) && Reaches(o, s, t)
    ensures Healthy(o, t) && t.frame == s.frame + 1 && t.nextId >= s.nextId
  {
    hide Healthy, Advances;
    var ds, log, after :| Advances(o, s, ds, log, after, t);
    UpdateKeepsHealth(o, s, ds, log, after, t);
  }

  /**
    Between updates: ids increase along the list and are below the next one; no track is marked
    removed; tentative tracks were born in this frame; lost ones were confirmed, and lost no
    longer ago than allowed; and the k-th snapshot is that of frame k.
   */
  lemma {:induction false} HistoryIsHealthy(o: Options, ss: seq<Snapshot>, k: nat)
    requires History(o, ss) && k < |ss|
    ensures Healthy(o, ss[k]) && ss[k].frame == k
  {
    hide Sane, Reaches;
    if k > 0 {
      HistoryIsHealthy(o, ss, k - 1);
      assert Reaches(o, ss[k - 1], ss[k - 1 + 1]);
      ReachKeepsHealth(o, ss[k - 1], ss[k]);
    }
  }

  ghost predicate Holds(s: Snapshot, x: Track) {
    exists p :: 0 <= p < |s.tracks| && s.tracks[p] == x
  }

  ghost predicate HasId(s: Snapshot, id: int) {
    exists p :: 0 <= p < |s.tracks| && s.tracks[p].id == id
  }

  /** A track in a snapshot was there before, or is new and has a new id. */
  lemma TrackComes(o: Options, s: Snapshot, t: Snapshot, q: nat)
    requires Healthy(o, s) && Reaches(o, s, t) && q < |t.tracks|
    ensures Comes(o, s, t, t.tracks[q])
  {
    hide Healthy, Advances, Comes, Sane;
    var ds, log, after :| Advances(o, s, ds, log, after, t);
    ResultComes(o, s, ds, log, after, t, q);
  }

  /** Ids are given out once: an id that is gone, and was given out before, does not come back. */
  lemma {:induction false} IdsAreNeverReused(o: Options, ss: seq<Snapshot>, b: nat, c: nat, id: int)
    requires History(o, ss) && b <= c < |ss| && id < ss[b].nextId && !HasId(ss[b], id)
    ensures !HasId(ss[c], id)
    ensures id < ss[c].nextId
    decreases c - b
  {
    hide Reaches, Continues, Healthy;
    if b < c {
      IdsAreNeverReused(o, ss, b, c - 1, id);
      HistoryIsHealthy(o, ss, c - 1);
      assert Reaches(o, ss[c - 1], ss[c - 1 + 1]);
      ReachKeepsHealth(o, ss[c - 1], ss[c]);
      if q :| 0 <= q < |ss[c].tracks| && ss[c].tracks[q].id == id {
        TrackComes(o, ss[c - 1], ss[c], q);
        ComesFromId(o, ss[c - 1], ss[c], ss[c].tracks[q]);
      }
    }
  }

  lemma ComesFromId(o: Options, s: Snapshot, t: Snapshot, y: Track)
    requires Comes(o, s, t, y)
    ensures HasId(s, y.id) || y.id >= s.nextId
  {
  }

  lemma SameIdSameTrack(o: Options, s: Snapshot, i: nat, j: nat)
    requires Healthy(o, s) && i < |s.tracks| && j < |s.tracks| && s.tracks[i].id == s.tracks[j].id
    ensures i == j
  {
  }

  lemma HeldIdsAreOld(o: Options, ss: seq<Snapshot>, a: nat, id: int)
    requires History(o, ss) && a < |ss| && HasId(ss[a], id)
    ensures id < ss[a].nextId
  {
    HistoryIsHealthy(o, ss, a);
    var p :| 0 <= p < |ss[a].tracks| && ss[a].tracks[p].id == id;
    assert Sane(o, ss[a].frame, ss[a].nextId, ss[a].tracks[p]);
  }

  ghost predicate ReportsId(s: Snapshot, id: int) {
    exists p :: 0 <= p < |s.tracks| && s.tracks[p].id == id && Reported(s.tracks[p])
  }

  /** The track with this id, in a snapshot that has it. */
  ghost function TrackOf(s: Snapshot, id: int): (x: Track)
    requires HasId(s, id)
    ensures x.id == id && Holds(s, x)
  {
    var p :| 0 <= p < |s.tracks| && s.tracks[p].id == id;
    s.tracks[p]
  }

  lemma TrackOfIsUnique(o: Options, s: Snapshot, id: int, p: nat)
    requires Healthy(o, s) && p < |s.tracks| && s.tracks[p].id == id
    ensures HasId(s, id) && TrackOf(s, id) == s.tracks[p]
  {
    hide Sane;
    assert HasId(s, id);
    var x := TrackOf(s, id);
    var q :| 0 <= q < |s.tracks| && s.tracks[q] == x;
    SameIdSameTrack(o, s, p, q);
  }

  /** A track present in two neighbouring snapshots goes on from the first to the second. */
  lemma SameTrackContinues(o: Options, s: Snapshot, t: Snapshot, id: int)
    requires Healthy(o, s) && Reaches(o, s, t) && HasId(s, id) && HasId(t, id)
    ensures Continues(TrackOf(s, id), t.frame, TrackOf(t, id))
  {
    hide Reaches, Continues;
    ReachKeepsHealth(o, s, t);
    var q :| 0 <= q < |t.tracks| && t.tracks[q].id == id;
    TrackOfIsUnique(o, t, id, q);
    TrackComes(o, s, t, q);
    hide Healthy;
    var y := t.tracks[q];
    HasIdIsOld(o, s, id);
    var p :| 0 <= p < |s.tracks| && Continues(s.tracks[p], t.frame, y);
    ContinuesKeepsId(s.tracks[p], t.frame, y);
    TrackOfIsUnique(o, s, id, p);
  }

  lemma HasIdIsOld(o: Options, s: Snapshot, id: int)
    requires Healthy(o, s) && HasId(s, id)
    ensures id < s.nextId
  {
    var p :| 0 <= p < |s.tracks| && s.tracks[p].id == id;
    assert Sane(o, s.frame, s.nextId, s.tracks[p]);
  }

  lemma ContinuesKeepsId(x: Track, frame: int, y: Track)
    requires Continues(x, frame, y)
    ensures x.id == y.id
  {
  }

  /** Between two sightings an unreported track is still there, and remembers when it was last seen. */
  lemma {:induction false} UnseenIsRemembered(o: Options, ss: seq<Snapshot>, a: nat, b: nat, k: nat, id: int)
    requires History(o, ss) && a <= k < b < |ss| && ReportsId(ss[a], id) && HasId(ss[b], id)
    requires forall j :: a < j < b ==> !ReportsId(ss[j], id)
    ensures HasId(ss[k], id)
    ensures TrackOf(ss[k], id).lastFrame == a && TrackOf(ss[k], id).startFrame == TrackOf(ss[a], id).startFrame
    ensures k > a ==> TrackOf(ss[k], id).state.Lost?
    decreases k - a
  {
    hide Reaches, Healthy;
    HistoryIsHealthy(o, ss, a);
    ReportedIsCurrent(o, ss[a], id);
    if !HasId(ss[k], id) {
      HeldIdsAreOld(o, ss, a, id);
      NextIdGrows(o, ss, a, k);
      IdsAreNeverReused(o, ss, k, b, id);
    }
    if k > a {
      UnseenIsRemembered(o, ss, a, b, k - 1, id);
      HistoryIsHealthy(o, ss, k - 1);
      HistoryIsHealthy(o, ss, k);
      assert Reaches(o, ss[k - 1], ss[k - 1 + 1]);
      SameTrackContinues(o, ss[k - 1], ss[k], id);
      NotReported(ss[k], id);
    }
  }

  lemma NotReported(s: Snapshot, id: int)
    requires HasId(s, id) && !ReportsId(s, id)
    ensures !Reported(TrackOf(s, id))
  {
    var x := TrackOf(s, id);
    var p :| 0 <= p < |s.tracks| && s.tracks[p] == x;
  }

  lemma ReportedIsCurrent(o: Options, s: Snapshot, id: int)
    requires Healthy(o, s) && ReportsId(s, id)
    ensures HasId(s, id) && Reported(TrackOf(s, id)) && TrackOf(s, id).lastFrame == s.frame
  {
    var p :| 0 <= p < |s.tracks| && s.tracks[p].id == id && Reported(s.tracks[p]);
    assert Sane(o, s.frame, s.nextId, s.tracks[p]);
    TrackOfIsUnique(o, s, id, p);
  }

  lemma {:induction false} NextIdGrows(o: Options, ss: seq<Snapshot>, a: nat, k: nat)
    requires History(o, ss) && a <= k < |ss|
    ensures ss[a].nextId <= ss[k].nextId
    decreases k - a
  {
    hide Reaches, Healthy;
    if a < k {
      NextIdGrows(o, ss, a, k - 1);
      HistoryIsHealthy(o, ss, k - 1);
      assert Reaches(o, ss[k - 1], ss[k - 1 + 1]);
      ReachKeepsHealth(o, ss[k - 1], ss[k]);
    }
  }

  /**
    Two consecutive reports of the same id are at most MaxTimeLost + 1 frames apart (and at most
    one if that is negative), and the reported age grows by exactly as many frames.
   */
  lemma ReportsAreClose(o: Options, ss: seq<Snapshot>, a: nat, b: nat, id: int)
    requires History(o, ss) && a < b < |ss| && ReportsId(ss[a], id) && ReportsId(ss[b], id)
    requires forall j :: a < j < b ==> !ReportsId(ss[j], id)
    ensures b - a <= (if MaxTimeLost(o) < 0 then 0 else MaxTimeLost(o)) + 1
    ensures HasId(ss[a], id) && HasId(ss[b], id)
    ensures TrackOf(ss[b], id).startFrame == TrackOf(ss[a], id).startFrame
  {
    hide Reaches, Healthy, MaxTimeLost;
    HistoryIsHealthy(o, ss, a);
    HistoryIsHealthy(o, ss, b);
    HistoryIsHealthy(o, ss, b - 1);
    ReportedIsCurrent(o, ss[a], id);
    ReportedIsCurrent(o, ss[b], id);
    UnseenIsRemembered(o, ss, a, b, b - 1, id);
    assert Reaches(o, ss[b - 1], ss[b - 1 + 1]);
    SameTrackContinues(o, ss[b - 1], ss[b], id);
    if b - 1 > a {
      LostIsYoung(o, ss[b - 1], id);
    }
  }

  lemma LostIsYoung(o: Options, s: Snapshot, id: int)
    requires Healthy(o, s) && HasId(s, id) && TrackOf(s, id).state.Lost?
    ensures s.frame - TrackOf(s, id).lastFrame <= MaxTimeLost(o)
  {
    hide MaxTimeLost;
    var x := TrackOf(s, id);
    var p :| 0 <= p < |s.tracks| && s.tracks[p] == x;
    assert Sane(o, s.frame, s.nextId, s.tracks[p]);
  }

  // ---------- reports and detections ----------

  /** The detection a reported track was last matched with, or started from. */
  ghost predicate Shows(y: Track, ds: seq<Detection>, d: int) {
    0 <= d < |ds| && y.score == ds[d].score && y.classId == ds[d].classId
  }

  /**
    Detection d is behind entry p of the list before ageing: an old track was matched with it, or a
    new one started from it. The first n entries are old.
   */
  ghost predicate IsSource(log: Log, born: seq<int>, n: nat, p: nat, d: int)
    requires LogInRange(log) && p < n + |born|
  {
    if p < n then exists i :: 0 <= i < |AllMatches(log)| && AllMatches(log)[i] == (p, d) else d == born[p - n]
  }

  /** The detection behind entry p of the list before ageing, if that entry is reported. */
  lemma SourceOf(o: Options, s: Snapshot, ds: seq<Detection>, log: Log, after: seq<Track>, t: Snapshot,
      p: nat) returns (d: int)
    requires Healthy(o, s) && Advances(o, s, ds, log, after, t)
    requires p < |after| + |Newborn(o, ds, log)|
    requires Reported((after + Births(ds, Newborn(o, ds, log), s.nextId, s.frame + 1))[p])
    ensures Shows((after + Births(ds, Newborn(o, ds, log), s.nextId, s.frame + 1))[p], ds, d)
    ensures LogInRange(log) && IsSource(log, Newborn(o, ds, log), |after|, p, d)
  {
    hide Lineup, Cheapest, Fates, Kalman.UpdatedBy, Kalman.Predicted, Newborn, AllMatches, Survivors,
      Association.ColsLeft, Base, Sane;
    if p < |after| {
      FatesLength(s.tracks, ds, s.frame + 1, AllMatches(log), after);
      d := FateOf(s.tracks, ds, s.frame + 1, AllMatches(log), after, p);
      if !MatchesTrack(AllMatches(log), p) {
        UnmatchedIsNotReported(s.tracks, ds, s.frame + 1, AllMatches(log), after, p);
      }
    } else {
      d := Newborn(o, ds, log)[p - |after|];
    }
  }

  lemma UnmatchedIsNotReported(before: seq<Track>, ds: seq<Detection>, frame: int, m: seq<Pair>,
      after: seq<Track>, p: nat)
    requires AllShaped(before) && AllShaped(Bases(before)) && PairsInRange(m, |before|, |ds|)
    requires Fates(before, ds, frame, m, after) && p < |before| && !MatchesTrack(m, p)
    ensures !Reported(after[p])
  {
    hide Kalman.Predicted, MatchedTo;
  }

  lemma UpdateParts(o: Options, s: Snapshot, ds: seq<Detection>, log: Log, after: seq<Track>, t: Snapshot)
    requires Advances(o, s, ds, log, after, t)
    ensures LogInRange(log) && Within(log.third.ColsLeft(), |ds|) && Within(Newborn(o, ds, log), |ds|)
    ensures var all := after + Births(ds, Newborn(o, ds, log), s.nextId, s.frame + 1);
      t.tracks == Survivors(o, s.frame + 1, all, |all|)
  {
    hide Lineup, Cheapest, Fates, Newborn, Survivors;
  }

  /** The detections behind the first k entries of the list before ageing. */
  lemma {:induction false} SourcesUpTo(o: Options, s: Snapshot, ds: seq<Detection>, log: Log, after: seq<Track>,
      t: Snapshot, k: nat) returns (f: seq<int>)
    requires Healthy(o, s) && Advances(o, s, ds, log, after, t)
    requires k <= |after| + |Newborn(o, ds, log)|
    ensures LogInRange(log) && Within(log.third.ColsLeft(), |ds|) && Within(Newborn(o, ds, log), |ds|)
    ensures |f| == k
    ensures var all := after + Births(ds, Newborn(o, ds, log), s.nextId, s.frame + 1);
      forall p :: 0 <= p < k && Reported(all[p]) ==>
        Shows(all[p], ds, f[p]) && IsSource(log, Newborn(o, ds, log), |after|, p, f[p])
  {
    hide Advances, Newborn, Association.ColsLeft, Sane, Shows, Births, IsSource;
    UpdateParts(o, s, ds, log, after, t);
    var all := after + Births(ds, Newborn(o, ds, log), s.nextId, s.frame + 1);
    if k == 0 {
      f := [];
    } else {
      f := SourcesUpTo(o, s, ds, log, after, t, k - 1);
      var d := 0;
      if Reported(all[k - 1]) {
        d := SourceOf(o, s, ds, log, after, t, k - 1);
      }
      f := f + [d];
    }
  }

  lemma SourcesDiffer(log: Log, born: seq<int>, n: nat, k: nat, p1: nat, d1: int, p2: nat, d2: int)
    requires LogInRange(log) && DistinctPairs(AllMatches(log)) && Ascending(born, k)
    requires p1 < p2 < n + |born|
    requires forall d :: d in born ==> !MatchesDetection(AllMatches(log), d)
    requires IsSource(log, born, n, p1, d1) && IsSource(log, born, n, p2, d2)
    ensures d1 != d2
  {
    hide AllMatches;
    var m := AllMatches(log);
    if p2 < n {
      var i :| 0 <= i < |m| && m[i] == (p1, d1);
      var j :| 0 <= j < |m| && m[j] == (p2, d2);
    } else if p1 < n {
      var i :| 0 <= i < |m| && m[i] == (p1, d1);
      assert MatchesDetection(m, d1);
      assert d2 in born;
    }
  }

  /**
    Reported tracks inject into the frame's detections: f gives each its own detection, whose score
    and class it shows, and no two the same. And each has been seen in this very frame.
   */
  lemma ReportsInject(o: Options, s: Snapshot, ds: seq<Detection>, log: Log, after: seq<Track>, t: Snapshot)
    returns (f: seq<int>)
    requires Healthy(o, s) && Advances(o, s, ds, log, after, t)
    ensures |f| == |t.tracks|
    ensures forall q :: 0 <= q < |f| && Reported(t.tracks[q]) ==>
      Shows(t.tracks[q], ds, f[q]) && t.tracks[q].lastFrame == t.frame
    ensures forall q1, q2 :: 0 <= q1 < q2 < |f| && Reported(t.tracks[q1]) && Reported(t.tracks[q2]) ==> f[q1] != f[q2]
  {
    hide Advances, Newborn, AllMatches, Survivors, Association.ColsLeft, Shows, Births, MatchesDetection, Dies,
      IsSource, Where;
    UpdateParts(o, s, ds, log, after, t);
    var born := Newborn(o, ds, log);
    var all := after + Births(ds, born, s.nextId, s.frame + 1);
    var flags := LiveFlags(o, s.frame + 1, all);
    var w := Where(flags, |all|);
    SurvivorsArePicked(o, s.frame + 1, all, |all|);
    WhereIs(flags, |all|);
    var g := SourcesUpTo(o, s, ds, log, after, t, |all|);
    EachUsedOnce(o, s, ds, log, after, t);
    UpdateKeepsHealth(o, s, ds, log, after, t);
    f := Pick(g, w);
    forall q1, q2 | 0 <= q1 < q2 < |f| && Reported(t.tracks[q1]) && Reported(t.tracks[q2]) ensures f[q1] != f[q2] {
      SourcesDiffer(log, born, |after|, |ds|, w[q1], g[w[q1]], w[q2], g[w[q2]]);
    }
  }

  // ---------- what the caller is handed ----------

  function ReportFlags(tracks: seq<Track>): (f: seq<bool>)
    ensures |f| == |tracks| && forall t :: 0 <= t < |tracks| ==> f[t] == Reported(tracks[t])
  {
    seq(|tracks|, t requires 0 <= t < |tracks| => Reported(tracks[t]))
  }

  /** The report keeps the order of the tracks. */
  lemma {:induction false} ReportsArePicked(tracks: seq<Track>, frame: int, n: nat)
    requires AllShaped(tracks) && n <= |tracks|
    ensures var w, r := Where(ReportFlags(tracks), n), Reports(tracks, frame, n);
      |r| == |w| && forall k :: 0 <= k < |r| ==> 0 <= w[k] < n && r[k] == ReportOf(tracks[w[k]], frame)
  {
    hide ReportOf, Reported;
    if n > 0 {
      ReportsArePicked(tracks, frame, n - 1);
      var flags := ReportFlags(tracks);
      var w, r := Where(flags, n - 1), Reports(tracks, frame, n - 1);
      if flags[n - 1] {
        assert Where(flags, n) == w + [n - 1];
        assert Reports(tracks, frame, n) == r + [ReportOf(tracks[n - 1], frame)];
      } else {
        assert Where(flags, n) == w && Reports(tracks, frame, n) == r;
      }
    }
  }

  /** An object is reported exactly if it is that of a track that is confirmed and seen. */
  lemma ReportsAreOfReported(tracks: seq<Track>, frame: int)
    requires AllShaped(tracks)
    ensures forall x :: x in Reports(tracks, frame, |tracks|) <==>
      exists q :: 0 <= q < |tracks| && Reported(tracks[q]) && x == ReportOf(tracks[q], frame)
  {
    hide ReportOf, Reported, Reports, Where;
    ReportsArePicked(tracks, frame, |tracks|);
    WhereIs(ReportFlags(tracks), |tracks|);
    var w, r := Where(ReportFlags(tracks), |tracks|), Reports(tracks, frame, |tracks|);
    forall q | 0 <= q < |tracks| && Reported(tracks[q]) ensures ReportOf(tracks[q], frame) in r {
      var k :| 0 <= k < |w| && w[k] == q;
      assert r[k] == ReportOf(tracks[q], frame);
    }
    forall k | 0 <= k < |r| ensures Reported(tracks[w[k]]) {
      assert w[k] in w;
    }
  }

  /**
    The list handed to the caller: its objects inject into the frame's detections, so there are no
    more objects than detections, and their ids are strictly increasing.
   */
  lemma ReportedObjectsInject(o: Options, s: Snapshot, ds: seq<Detection>, log: Log, after: seq<Track>, t: Snapshot,
      out: seq<TrackedObject>) returns (g: seq<int>)
    requires Healthy(o, s) && Advances(o, s, ds, log, after, t)
    requires AllShaped(t.tracks) && out == Reports(t.tracks, t.frame, |t.tracks|)
    ensures |g| == |out| <= |ds| && Distinct(g)
    ensures forall k :: 0 <= k < |out| ==>
      0 <= g[k] < |ds| && out[k].score == ds[g[k]].score && out[k].classId == ds[g[k]].classId
    ensures forall i, j :: 0 <= i < j < |out| ==> out[i].trackId < out[j].trackId
  {
    hide Advances, Reports, Where, Reported, Sane;
    var f := ReportsInject(o, s, ds, log, after, t);
    UpdateKeepsHealth(o, s, ds, log, after, t);
    ReportsArePicked(t.tracks, t.frame, |t.tracks|);
    WhereIs(ReportFlags(t.tracks), |t.tracks|);
    var w := Where(ReportFlags(t.tracks), |t.tracks|);
    g := Pick(f, w);
    forall k | 0 <= k < |w| ensures Reported(t.tracks[w[k]]) {
      assert w[k] in w;
    }
    Pigeonhole(g, |ds|);
  }
}
