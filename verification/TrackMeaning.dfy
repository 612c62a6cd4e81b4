/**
  What the tracker does, told by what a caller sees: which tracks and detections find each other and
  which do not, what the first frame reports, how old objects are said to be, what a sighting or the
  lack of one does to a track.
 */
module TrackMeaning {
  import opened Detections
  import opened GatedMatching
  import opened Tracks
  import opened TrackHistory
  import opened TrackLifetime
  import opened SmallMatrix
  import opened KalmanScaling
  import Kalman = BoxKalmanFilter

  // ---------- who finds whom ----------

  /** How much a detection speaks for a box: by overlap, times its score if so configured. */
  function Affinity(box: Box, d: Detection, fuse: bool): real {
    Iou(box, d.box) * if fuse then d.score else 1.0
  }

  /**
    Where a track is expected: a tentative one where it was seen; others one step of their velocity
    further on, but lost ones at the height they had.
   */
  function Ahead(x: Track): Box
    requires x.kalman.Shaped()
  {
    var m := x.kalman.mean;
    if x.state.Tracked? && !x.activated then
      FromCenter(m[0][0], m[1][0], m[2][0] * m[3][0], m[3][0])
    else
      var h := m[3][0] + if x.state.Tracked? then m[7][0] else 0.0;
      FromCenter(m[0][0] + m[4][0], m[1][0] + m[5][0], (m[2][0] + m[6][0]) * h, h)
  }

  lemma BaseIsAhead(x: Track)
    requires x.kalman.Shaped()
    ensures Base(x).kalman.Shaped() && Kalman.ToBox(Base(x).kalman.mean) == Ahead(x)
  {
    hide Kalman.Predicted;
    if !Tentative(x) {
      var s := Frozen(x);
      PredictedMean(s, 0);
      PredictedMean(s, 1);
      PredictedMean(s, 2);
      PredictedMean(s, 3);
    }
  }

  lemma DissimilarityIs(x: Track, d: Detection, fuse: bool)
    requires x.kalman.Shaped()
    ensures Base(x).kalman.Shaped() && Dissimilarity(Base(x), d, fuse) == 1.0 - Affinity(Ahead(x), d, fuse)
  {
    hide Iou, Kalman.Predicted, Ahead, Base;
    BaseIsAhead(x);
  }

  /** Pairs of one association cost no more than its limit; pairs it left over, no less. */
  lemma PairIsInReach(tracks: seq<Track>, ds: seq<Detection>, limit: real, fuse: bool, a: Association, i: nat)
    requires AllShaped(tracks) && Associates(tracks, ds, limit, fuse, a) && a.InRange() && i < |a.Matches()|
    ensures var m := a.Matches()[i];
      0 <= m.0 < |tracks| && 0 <= m.1 < |ds| && Dissimilarity(tracks[m.0], ds[m.1], fuse) <= limit
  {
    hide Dissimilarity, Problem.Optimal;
    var p := CostProblem(tracks, ds, a.rows, a.cols, limit, fuse);
    assert p.Cost(a.pairs[i].0, a.pairs[i].1) <= limit;
  }

  lemma LeftPairIsOutOfReach(tracks: seq<Track>, ds: seq<Detection>, limit: real, fuse: bool, a: Association,
      t: int, d: int)
    requires AllShaped(tracks) && Associates(tracks, ds, limit, fuse, a) && a.InRange() && limit <= FORBIDDEN
    requires t in a.rows && d in a.cols && !MatchesTrack(a.Matches(), t) && !MatchesDetection(a.Matches(), d)
    ensures 0 <= t < |tracks| && 0 <= d < |ds| && Dissimilarity(tracks[t], ds[d], fuse) >= limit
  {
    hide Dissimilarity, Problem.Optimal;
    var p := CostProblem(tracks, ds, a.rows, a.cols, limit, fuse);
    var r :| 0 <= r < |a.rows| && a.rows[r] == t;
    var c :| 0 <= c < |a.cols| && a.cols[c] == d;
    var m := a.Matches();
    forall i | 0 <= i < |a.pairs| ensures a.pairs[i].0 != r && a.pairs[i].1 != c {
      assert m[i].0 != t && m[i].1 != d;
    }
    NothingInReachIsLeft(p, a.pairs, r, c);
  }

  lemma UpdateIsGated(o: Options, s: Snapshot, ds: seq<Detection>, log: Log, after: seq<Track>, t: Snapshot)
    requires Advances(o, s, ds, log, after, t)
    ensures Gated(log)
  {
    hide Associates, Lineup, Fates, Newborn, AllMatches, Survivors, Association.ColsLeft, DistinctPairs;
    AssociatesIsGated(Bases(s.tracks), ds, o.matchThreshold, o.fuseScore, log.first);
    AssociatesIsGated(Bases(s.tracks), ds, SECOND_STAGE_COST_LIMIT, false, log.second);
    AssociatesIsGated(Bases(s.tracks), ds, UNCONFIRMED_COST_LIMIT, o.fuseScore, log.third);
  }

  /**
    Who is matched is in reach: strong detections of confirmed and lost tracks at the threshold given,
    weak ones of confirmed tracks in sight at one half, and strong ones of tentative tracks at 0.3.
   */
  lemma MatchesAreInReach(o: Options, s: Snapshot, ds: seq<Detection>, log: Log, after: seq<Track>, t: Snapshot,
      i: nat)
    requires Advances(o, s, ds, log, after, t) && i < |AllMatches(log)|
    ensures var (p, d) := AllMatches(log)[i];
      && 0 <= p < |s.tracks| && 0 <= d < |ds| && s.tracks[p].kalman.Shaped()
      && var x := s.tracks[p];
         if x.state.Tracked? && !x.activated then
           ds[d].score >= o.highThreshold && Affinity(Ahead(x), ds[d], o.fuseScore) >= 0.3
         else if ds[d].score >= o.highThreshold then
           Affinity(Ahead(x), ds[d], o.fuseScore) >= 1.0 - o.matchThreshold
         else
           x.state.Tracked? && ds[d].score > o.lowThreshold && Iou(Ahead(x), ds[d].box) >= 0.5
  {
    hide Associates, Lineup, Fates, Newborn, Survivors, Association.ColsLeft, Association.Matches, DistinctPairs,
      Dissimilarity, Affinity, Ahead, Base, MatchesTrack, MatchesDetection;
    UpdateIsGated(o, s, ds, log, after, t);
    LineupSplits(o, s.tracks, ds, log);
    var a, b, c := log.first.Matches(), log.second.Matches(), log.third.Matches();
    var (p, d) := AllMatches(log)[i];
    DissimilarityIs(s.tracks[p], ds[d], o.fuseScore);
    if i < |a| {
      assert a[i] == (p, d);
      PairIsInReach(Bases(s.tracks), ds, o.matchThreshold, o.fuseScore, log.first, i);
    } else if i < |a| + |b| {
      assert b[i - |a|] == (p, d);
      PairIsInReach(Bases(s.tracks), ds, SECOND_STAGE_COST_LIMIT, false, log.second, i - |a|);
      DissimilarityIs(s.tracks[p], ds[d], false);
      Unfused(Ahead(s.tracks[p]), ds[d]);
    } else {
      assert c[i - |a| - |b|] == (p, d);
      PairIsInReach(Bases(s.tracks), ds, UNCONFIRMED_COST_LIMIT, o.fuseScore, log.third, i - |a| - |b|);
    }
  }

  lemma Unfused(box: Box, d: Detection)
    ensures Affinity(box, d, false) == Iou(box, d.box)
  {
  }

  /**
    Who is left is out of reach: of a track and a detection that both went unmatched, and could have
    been matched with each other, the detection does not speak for the track more than the limit asks.
   */
  lemma LeftoversAreOutOfReach(o: Options, s: Snapshot, ds: seq<Detection>, log: Log, after: seq<Track>, t: Snapshot,
      p: nat, d: nat)
    requires Advances(o, s, ds, log, after, t) && p < |s.tracks| && d < |ds| && !s.tracks[p].state.Removed?
    requires !MatchesTrack(AllMatches(log), p) && !MatchesDetection(AllMatches(log), d)
    ensures s.tracks[p].kalman.Shaped()
    ensures var x := s.tracks[p];
      if x.state.Tracked? && !x.activated then
        ds[d].score >= o.highThreshold ==> Affinity(Ahead(x), ds[d], o.fuseScore) <= 0.3
      else if ds[d].score >= o.highThreshold then
        o.matchThreshold <= FORBIDDEN ==> Affinity(Ahead(x), ds[d], o.fuseScore) <= 1.0 - o.matchThreshold
      else
        x.state.Tracked? && ds[d].score > o.lowThreshold ==> Iou(Ahead(x), ds[d].box) <= 0.5
  {
    hide Associates, Fates, Newborn, Survivors, Association.ColsLeft, Association.RowsLeft, Association.Matches,
      DistinctPairs, Dissimilarity, Affinity, Ahead, Base, MatchesTrack, MatchesDetection, Where, Keep, AllMatches;
    UpdateIsGated(o, s, ds, log, after, t);
    MatchedInAny(log, d);
    TrackInAny(log, p);
    FirstSplits(o, s.tracks, ds, log);
    KeepIs(log.first.RowsLeft(), TrackedFlags(s.tracks));
    WhereIs(PoolFlags(s.tracks), |s.tracks|);
    WhereIs(TentativeFlags(s.tracks), |s.tracks|);
    WhereIs(HighFlags(o, ds), |ds|);
    WhereIs(LowFlags(o, ds), |ds|);
    var x := s.tracks[p];
    DissimilarityIs(x, ds[d], o.fuseScore);
    if Tentative(x) {
      if IsHigh(o, ds[d]) {
        LeftPairIsOutOfReach(Bases(s.tracks), ds, UNCONFIRMED_COST_LIMIT, o.fuseScore, log.third, p, d);
      }
    } else if IsHigh(o, ds[d]) {
      if o.matchThreshold <= FORBIDDEN {
        LeftPairIsOutOfReach(Bases(s.tracks), ds, o.matchThreshold, o.fuseScore, log.first, p, d);
      }
    } else if x.state.Tracked? && IsLow(o, ds[d]) {
      LeftPairIsOutOfReach(Bases(s.tracks), ds, SECOND_STAGE_COST_LIMIT, false, log.second, p, d);
      DissimilarityIs(x, ds[d], false);
      Unfused(Ahead(x), ds[d]);
    }
  }

  // ---------- one track, from frame to frame ----------

  /** y is track p of the old list, matched with detection d. */
  ghost predicate Seen(o: Options, s: Snapshot, ds: seq<Detection>, p: int, d: int, y: Track) {
    && 0 <= p < |s.tracks| && 0 <= d < |ds| && s.tracks[p].id == y.id
    && s.tracks[p].kalman.Shaped() && Base(s.tracks[p]).kalman.Shaped()
    && MatchedTo(Base(s.tracks[p]), ds[d], s.frame + 1, y) && StrongEnough(o, s.tracks[p], ds[d])
  }

  /** y is track p of the old list, which nothing was matched with. */
  ghost predicate Missed(s: Snapshot, p: int, y: Track) {
    && 0 <= p < |s.tracks| && s.tracks[p].id == y.id
    && s.tracks[p].kalman.Shaped() && y == Unmatched(s.tracks[p])
  }

  /** y is new, and started from detection d. */
  ghost predicate Appeared(o: Options, s: Snapshot, ds: seq<Detection>, d: int, y: Track) {
    && 0 <= d < |ds| && y == Born(ds[d], y.id, s.frame + 1) && y.id >= s.nextId
    && ds[d].score >= o.highThreshold && ds[d].score >= o.newTrackThreshold
  }

  /** The ways in which an update leaves track y. */
  ghost predicate Came(o: Options, s: Snapshot, ds: seq<Detection>, y: Track) {
    (exists p, d :: Seen(o, s, ds, p, d, y)) || (exists p :: Missed(s, p, y)) || exists d :: Appeared(o, s, ds, d, y)
  }

  /** A weak detection only keeps a confirmed track in sight. */
  ghost predicate StrongEnough(o: Options, x: Track, d: Detection) {
    d.score >= o.highThreshold || (d.score > o.lowThreshold && x.state.Tracked? && x.activated)
  }

  lemma MatchIsStrongEnough(o: Options, before: seq<Track>, ds: seq<Detection>, log: Log, i: nat)
    requires Lineup(o, before, ds, log) && Gated(log) && LogInRange(log) && i < |AllMatches(log)|
    ensures var (p, d) := AllMatches(log)[i];
      0 <= p < |before| && 0 <= d < |ds| && StrongEnough(o, before[p], ds[d])
  {
    hide Lineup, Gated, Association.Matches, DistinctPairs, MatchesTrack, MatchesDetection;
    LineupSplits(o, before, ds, log);
    var a, b, c := log.first.Matches(), log.second.Matches(), log.third.Matches();
    var m := AllMatches(log)[i];
    if i < |a| {
      assert a[i] == m;
    } else if i < |a| + |b| {
      assert b[i - |a|] == m;
    } else {
      assert c[i - |a| - |b|] == m;
    }
  }

  lemma ResultCame(o: Options, s: Snapshot, ds: seq<Detection>, log: Log, after: seq<Track>, t: Snapshot, q: nat)
    requires Advances(o, s, ds, log, after, t) && q < |t.tracks|
    ensures Came(o, s, ds, t.tracks[q])
  {
    hide Lineup, Cheapest, Association.Matches, Kalman.UpdatedBy, Kalman.Predicted, Fates, MatchedTo,
      Unmatched, Base, Dies, Newborn, AllMatches, Survivors, Association.ColsLeft, Born, StrongEnough, Gated, IsHigh,
      DistinctPairs;
    UpdateIsGated(o, s, ds, log, after, t);
    var born := Births(ds, Newborn(o, ds, log), s.nextId, s.frame + 1);
    var all := after + born;
    var p := SurvivorAt(o, s.frame + 1, all, q);
    FatesLength(s.tracks, ds, s.frame + 1, AllMatches(log), after);
    if p < |s.tracks| {
      var d := FateOf(s.tracks, ds, s.frame + 1, AllMatches(log), after, p);
      if MatchesTrack(AllMatches(log), p) {
        var i :| 0 <= i < |AllMatches(log)| && AllMatches(log)[i] == (p, d);
        MatchIsStrongEnough(o, s.tracks, ds, log, i);
        assert Seen(o, s, ds, p, d, all[p]);
      } else {
        UnmatchedMeetsFate(s.tracks, ds, s.frame + 1, AllMatches(log), after, p);
        assert Missed(s, p, all[p]);
      }
    } else {
      var k := p - |after|;
      var d := Newborn(o, ds, log)[k];
      assert all[p] == born[k] && d in Newborn(o, ds, log);
      EachUsedOnce(o, s, ds, log, after, t);
      IsBorn(o, ds[d], s.nextId + k, s.frame + 1);
      assert Appeared(o, s, ds, d, all[p]);
    }
  }

  lemma UnmatchedMeetsFate(before: seq<Track>, ds: seq<Detection>, frame: int, m: seq<Pair>, after: seq<Track>, p: nat)
    requires AllShaped(before) && AllShaped(Bases(before)) && PairsInRange(m, |before|, |ds|)
    requires Fates(before, ds, frame, m, after) && p < |before| && !MatchesTrack(m, p)
    ensures p < |after| && after[p] == Unmatched(before[p])
  {
    hide Kalman.Predicted, MatchedTo, Unmatched, Base;
  }

  lemma IsBorn(o: Options, d: Detection, id: int, frame: int)
    ensures Born(d, id, frame).id == id && (IsHigh(o, d) <==> d.score >= o.highThreshold)
  {
  }

  /** In a history, each track of a snapshot but the first came about in one of the three ways. */
  lemma UpdateCame(o: Options, ss: seq<Snapshot>, b: nat, ds: seq<Detection>, log: Log, after: seq<Track>, id: int)
    requires History(o, ss) && 0 < b < |ss| && HasId(ss[b], id) && Advances(o, ss[b - 1], ds, log, after, ss[b])
    ensures Healthy(o, ss[b - 1]) && Healthy(o, ss[b]) && ss[b - 1].frame == b - 1 && ss[b].frame == b
    ensures Came(o, ss[b - 1], ds, TrackOf(ss[b], id))
  {
    hide Advances, Healthy, Came;
    HistoryIsHealthy(o, ss, b - 1);
    HistoryIsHealthy(o, ss, b);
    var q :| 0 <= q < |ss[b].tracks| && ss[b].tracks[q] == TrackOf(ss[b], id);
    ResultCame(o, ss[b - 1], ds, log, after, ss[b], q);
  }

  lemma HistoryCame(o: Options, ss: seq<Snapshot>, b: nat, id: int) returns (ds: seq<Detection>)
    requires History(o, ss) && 0 < b < |ss| && HasId(ss[b], id)
    ensures Healthy(o, ss[b - 1]) && Healthy(o, ss[b]) && ss[b - 1].frame == b - 1 && ss[b].frame == b
    ensures Came(o, ss[b - 1], ds, TrackOf(ss[b], id))
  {
    hide Advances, Healthy, Came;
    assert Reaches(o, ss[b - 1], ss[b - 1 + 1]);
    var theDs, log, after :| Advances(o, ss[b - 1], theDs, log, after, ss[b]);
    ds := theDs;
    UpdateCame(o, ss, b, ds, log, after, id);
  }

  /**
    How strong a detection must be: an object is reported on a detection above the low threshold at
    least; reported again after a frame without it, or for the first time, on one above the high
    threshold; and given an id only on one above the threshold for new tracks as well.
   */
  lemma ScoresOfReports(o: Options, ss: seq<Snapshot>, b: nat, id: int)
    requires History(o, ss) && 0 < b < |ss| && HasId(ss[b], id)
    ensures var y := TrackOf(ss[b], id);
      && (ReportsId(ss[b], id) ==> y.score >= o.highThreshold || y.score > o.lowThreshold)
      && (ReportsId(ss[b], id) && !ReportsId(ss[b - 1], id) ==> y.score >= o.highThreshold)
      && (!HasId(ss[b - 1], id) ==> y.score >= o.highThreshold && y.score >= o.newTrackThreshold)
  {
    hide Healthy, Seen, Missed, Appeared;
    var ds := HistoryCame(o, ss, b, id);
    var y, s := TrackOf(ss[b], id), ss[b - 1];
    if ReportsId(ss[b], id) {
      ReportedIsCurrent(o, ss[b], id);
    }
    if p, d :| Seen(o, s, ds, p, d, y) {
      SeenIsStrong(o, s, ds, p, d, y);
    } else if p :| Missed(s, p, y) {
      MissedIsUnseen(s, p, y);
    } else {
      var d :| Appeared(o, s, ds, d, y);
      AppearedShows(o, s, ds, d, y);
    }
  }

  lemma SeenIsStrong(o: Options, s: Snapshot, ds: seq<Detection>, p: int, d: int, y: Track)
    requires Seen(o, s, ds, p, d, y)
    ensures HasId(s, y.id) && (y.score >= o.highThreshold || (y.score > o.lowThreshold && ReportsId(s, y.id)))
  {
    hide Kalman.UpdatedBy, Base;
  }

  lemma MissedIsUnseen(s: Snapshot, p: int, y: Track)
    requires Missed(s, p, y)
    ensures HasId(s, y.id) && !Reported(y)
  {
    hide Kalman.Predicted;
  }

  /** A new track is the one its detection starts, and counts as confirmed in frame 1 only. */
  lemma AppearedShows(o: Options, s: Snapshot, ds: seq<Detection>, d: int, y: Track)
    requires Appeared(o, s, ds, d, y)
    ensures 0 <= d < |ds| && y == Born(ds[d], y.id, s.frame + 1) && y.score == ds[d].score
    ensures y.score >= o.highThreshold && y.score >= o.newTrackThreshold
    ensures y.startFrame == s.frame + 1 && (Reported(y) <==> s.frame == 0)
  {
  }

  // ---------- the first sighting ----------

  /** The first frame with an id: it is reported at once in frame 1 only. */
  lemma FirstSighting(o: Options, ss: seq<Snapshot>, a: nat, id: int) returns (d: Detection)
    requires History(o, ss) && 0 < a < |ss| && HasId(ss[a], id) && !HasId(ss[a - 1], id)
    ensures TrackOf(ss[a], id) == Born(d, id, a) && TrackOf(ss[a], id).startFrame == a
    ensures ReportsId(ss[a], id) <==> a == 1
  {
    hide Healthy, Seen, Missed, Appeared, Born, Reported;
    var ds := HistoryCame(o, ss, a, id);
    var y, s := TrackOf(ss[a], id), ss[a - 1];
    if p, d' :| Seen(o, s, ds, p, d', y) {
      SeenIsStrong(o, s, ds, p, d', y);
    } else if p :| Missed(s, p, y) {
      MissedIsUnseen(s, p, y);
    }
    var k :| Appeared(o, s, ds, k, y);
    AppearedShows(o, s, ds, k, y);
    d := ds[k];
    if ReportsId(ss[a], id) {
      ReportedIsCurrent(o, ss[a], id);
    } else {
      NotReported(ss[a], id);
    }
  }

  /** An id keeps the frame it was first seen in. */
  lemma {:induction false} StartIsKept(o: Options, ss: seq<Snapshot>, a: nat, b: nat, id: int)
    requires History(o, ss) && 0 < a <= b < |ss| && HasId(ss[a], id) && !HasId(ss[a - 1], id) && HasId(ss[b], id)
    ensures TrackOf(ss[b], id).startFrame == a
    decreases b - a
  {
    hide Reaches, Healthy;
    if a == b {
      var d := FirstSighting(o, ss, a, id);
    } else {
      if !HasId(ss[b - 1], id) {
        HeldIdsAreOld(o, ss, a, id);
        NextIdGrows(o, ss, a, b - 1);
        IdsAreNeverReused(o, ss, b - 1, b, id);
      }
      StartIsKept(o, ss, a, b - 1, id);
      HistoryIsHealthy(o, ss, b - 1);
      HistoryIsHealthy(o, ss, b);
      assert Reaches(o, ss[b - 1], ss[b - 1 + 1]);
      SameTrackContinues(o, ss[b - 1], ss[b], id);
    }
  }

  /**
    The age of a reported object is the number of frames since its id first appeared, that frame and
    this one counted.
   */
  lemma AgeCountsFrames(o: Options, ss: seq<Snapshot>, a: nat, b: nat, x: TrackedObject)
    requires History(o, ss) && 0 < a <= b < |ss| && AllShaped(ss[b].tracks)
    requires x in Reports(ss[b].tracks, b, |ss[b].tracks|)
    requires HasId(ss[a], x.trackId) && !HasId(ss[a - 1], x.trackId)
    ensures x.ageFrames == b - a + 1
  {
    hide Reaches, Healthy, Reports;
    ReportsAreOfReported(ss[b].tracks, b);
    var q :| 0 <= q < |ss[b].tracks| && Reported(ss[b].tracks[q]) && x == ReportOf(ss[b].tracks[q], b);
    HistoryIsHealthy(o, ss, b);
    TrackOfIsUnique(o, ss[b], x.trackId, q);
    StartIsKept(o, ss, a, b, x.trackId);
  }

  /** A new track that is not seen in the next frame is gone. */
  lemma FlickersVanish(o: Options, ss: seq<Snapshot>, a: nat, id: int)
    requires History(o, ss) && 1 < a && a + 1 < |ss| && HasId(ss[a], id) && !HasId(ss[a - 1], id)
    requires !ReportsId(ss[a + 1], id)
    ensures !HasId(ss[a + 1], id)
  {
    hide Reaches, Healthy;
    var d := FirstSighting(o, ss, a, id);
    NotReported(ss[a], id);
    HistoryIsHealthy(o, ss, a);
    HistoryIsHealthy(o, ss, a + 1);
    assert Reaches(o, ss[a], ss[a + 1]);
    if HasId(ss[a + 1], id) {
      SameTrackContinues(o, ss[a], ss[a + 1], id);
      NotReported(ss[a + 1], id);
    }
  }

  // ---------- the first frame ----------

  lemma {:induction false} NobodyDies(o: Options, frame: int, all: seq<Track>, n: nat)
    requires n <= |all| && forall k :: 0 <= k < n ==> all[k].state.Tracked?
    ensures Survivors(o, frame, all, n) == all[..n]
  {
    if n > 0 {
      NobodyDies(o, frame, all, n - 1);
      assert all[..n] == all[..n - 1] + [all[n - 1]];
    }
  }

  lemma {:induction false} EverybodyIsReported(tracks: seq<Track>, frame: int, n: nat)
    requires AllShaped(tracks) && n <= |tracks| && forall k :: 0 <= k < n ==> Reported(tracks[k])
    ensures var r := Reports(tracks, frame, n);
      |r| == n && forall k :: 0 <= k < n ==> r[k] == ReportOf(tracks[k], frame)
  {
    hide Reported, ReportOf;
    if n > 0 {
      EverybodyIsReported(tracks, frame, n - 1);
    }
  }

  /** Detection d, reported in frame 1 with this id. */
  predicate ReportedAt(d: Detection, id: int, x: TrackedObject) {
    && x.trackId == id && x.score == d.score && x.classId == d.classId && x.ageFrames == 1
    && (d.box.Height() > 0.0 ==> x.box == d.box)
  }

  lemma FirstReport(d: Detection, id: int)
    ensures Born(d, id, 1).kalman.Shaped() && Born(d, id, 1).state.Tracked? && Reported(Born(d, id, 1))
    ensures ReportedAt(d, id, ReportOf(Born(d, id, 1), 1))
  {
    hide Kalman.Initiate, Kalman.ToBox;
    Kalman.MeasurementRoundTrip(d.box);
  }

  lemma NewbornSurvive(o: Options, ds: seq<Detection>, w: seq<int>, after: seq<Track>)
    requires Within(w, |ds|) && |after| == 0
    ensures var born := Births(ds, w, 1, 1);
      after + born == born && Survivors(o, 1, born, |born|) == born
  {
    hide Survivors, Born;
    var born := Births(ds, w, 1, 1);
    forall k | 0 <= k < |born| ensures born[k].state.Tracked? {
      FirstReport(ds[w[k]], k + 1);
    }
    NobodyDies(o, 1, born, |born|);
    assert born[..|born|] == born;
  }

  /** All tracks after the first frame are new. */
  lemma FirstTracks(o: Options, ds: seq<Detection>, log: Log, after: seq<Track>, t: Snapshot)
    requires Advances(o, FRESH, ds, log, after, t)
    ensures Within(log.third.ColsLeft(), |ds|) && Within(Newborn(o, ds, log), |ds|)
    ensures t.frame == 1 && t.tracks == Births(ds, Newborn(o, ds, log), 1, 1)
  {
    hide Lineup, Cheapest, Fates, Newborn, Survivors, Association.ColsLeft, AllMatches, Births;
    FatesLength([], ds, 1, AllMatches(log), after);
    NewbornSurvive(o, ds, Newborn(o, ds, log), after);
  }

  /**
    The first frame reports exactly the detections that are strong, and strong enough for a new
    track, in their order, with the ids from 1 on and the boxes as they were detected.
   */
  lemma FirstFrame(o: Options, ds: seq<Detection>, log: Log, after: seq<Track>, t: Snapshot, out: seq<TrackedObject>)
    returns (w: seq<int>)
    requires Advances(o, FRESH, ds, log, after, t)
    requires AllShaped(t.tracks) && out == Reports(t.tracks, t.frame, |t.tracks|)
    ensures Ascending(w, |ds|)
    ensures forall d :: d in w <==>
      0 <= d < |ds| && ds[d].score >= o.highThreshold && ds[d].score >= o.newTrackThreshold
    ensures |out| == |w| && forall k :: 0 <= k < |w| ==> ReportedAt(ds[w[k]], k + 1, out[k])
  {
    hide Advances, Newborn, Reports, Association.ColsLeft, AllMatches, Born, ReportOf, Reported, ReportedAt,
      MatchesDetection;
    EachUsedOnce(o, FRESH, ds, log, after, t);
    forall d ensures !MatchesDetection(AllMatches(log), d) {
      NothingToMatch(o, ds, log, after, t, d);
    }
    FirstTracks(o, ds, log, after, t);
    w := Newborn(o, ds, log);
    forall k | 0 <= k < |w|
      ensures Reported(t.tracks[k]) && ReportedAt(ds[w[k]], k + 1, ReportOf(t.tracks[k], 1))
    {
      FirstReport(ds[w[k]], k + 1);
    }
    EverybodyIsReported(t.tracks, 1, |t.tracks|);
  }

  lemma NothingToMatch(o: Options, ds: seq<Detection>, log: Log, after: seq<Track>, t: Snapshot, d: int)
    requires Advances(o, FRESH, ds, log, after, t)
    ensures LogInRange(log) && !MatchesDetection(AllMatches(log), d)
  {
    hide Lineup, Cheapest, Fates, Newborn, Survivors, Association.ColsLeft, AllMatches;
    NoTracksNoMatches(AllMatches(log), |ds|, d);
  }

  lemma NoTracksNoMatches(m: seq<Pair>, cols: nat, d: int)
    requires PairsInRange(m, 0, cols)
    ensures !MatchesDetection(m, d)
  {
  }

  // ---------- seen again, or not ----------

  lemma AppearedIsNew(o: Options, s: Snapshot, ds: seq<Detection>, d: int, y: Track)
    requires Appeared(o, s, ds, d, y)
    ensures y.id >= s.nextId
  {
  }

  lemma SeenIsThere(o: Options, s: Snapshot, ds: seq<Detection>, p: int, d: int, y: Track)
    requires Seen(o, s, ds, p, d, y) && Healthy(o, s)
    ensures 0 <= p < |s.tracks| && 0 <= d < |ds| && HasId(s, y.id) && s.tracks[p] == TrackOf(s, y.id)
  {
    hide Healthy, Kalman.UpdatedBy, Base;
    TrackOfIsUnique(o, s, y.id, p);
  }

  lemma SeenUpdates(o: Options, s: Snapshot, ds: seq<Detection>, p: int, d: int, y: Track)
    requires Seen(o, s, ds, p, d, y)
    ensures s.tracks[p].kalman.Shaped() && Base(s.tracks[p]).kalman.Shaped()
    ensures y.score == ds[d].score && y.classId == ds[d].classId
    ensures Kalman.UpdatedBy(Base(s.tracks[p]).kalman, Kalman.ToMeasurement(ds[d].box), y.kalman)
  {
    hide Kalman.UpdatedBy, Base;
  }

  lemma SeenIsReported(o: Options, s: Snapshot, ds: seq<Detection>, p: int, d: int, y: Track)
    requires Seen(o, s, ds, p, d, y)
    ensures Reported(y)
  {
    hide Kalman.UpdatedBy, Base;
  }

  lemma MissedIsThere(o: Options, s: Snapshot, p: int, y: Track)
    requires Missed(s, p, y) && Healthy(o, s)
    ensures 0 <= p < |s.tracks| && HasId(s, y.id) && s.tracks[p] == TrackOf(s, y.id)
    ensures s.tracks[p].kalman.Shaped() && y == Unmatched(s.tracks[p])
  {
    hide Healthy, Unmatched;
    TrackOfIsUnique(o, s, y.id, p);
  }

  /** An old track that an update left was seen, if it is reported, and missed if not. */
  lemma OldTrackCame(o: Options, s: Snapshot, ds: seq<Detection>, y: Track) returns (p: int, d: int)
    requires Came(o, s, ds, y) && y.id < s.nextId
    ensures Reported(y) ==> Seen(o, s, ds, p, d, y)
    ensures !Reported(y) ==> Missed(s, p, y)
  {
    hide Seen, Missed, Appeared, Reported;
    p, d := 0, 0;
    if p', d' :| Seen(o, s, ds, p', d', y) {
      SeenIsReported(o, s, ds, p', d', y);
      p, d := p', d';
    } else if p' :| Missed(s, p', y) {
      MissedIsUnseen(s, p', y);
      p := p';
    } else if d' :| Appeared(o, s, ds, d', y) {
      AppearedIsNew(o, s, ds, d', y);
    }
  }

  lemma WasSeen(o: Options, ss: seq<Snapshot>, b: nat, ds: seq<Detection>, log: Log, after: seq<Track>, id: int)
    returns (k: nat)
    requires History(o, ss) && 0 < b < |ss| && Advances(o, ss[b - 1], ds, log, after, ss[b])
    requires HasId(ss[b - 1], id) && ReportsId(ss[b], id)
    ensures HasId(ss[b], id) && k < |ds| && TrackOf(ss[b], id).score == ds[k].score
    ensures TrackOf(ss[b], id).classId == ds[k].classId
    ensures TrackOf(ss[b - 1], id).kalman.Shaped() && Base(TrackOf(ss[b - 1], id)).kalman.Shaped()
    ensures var x, y := TrackOf(ss[b - 1], id), TrackOf(ss[b], id);
      Kalman.UpdatedBy(Base(x).kalman, Kalman.ToMeasurement(ds[k].box), y.kalman)
  {
    hide Healthy, Seen, Came, Reported, Base, Kalman.UpdatedBy, Kalman.ToMeasurement, Advances;
    HistoryIsHealthy(o, ss, b);
    ReportedIsCurrent(o, ss[b], id);
    HeldIdsAreOld(o, ss, b - 1, id);
    UpdateCame(o, ss, b, ds, log, after, id);
    var p, d := OldTrackCame(o, ss[b - 1], ds, TrackOf(ss[b], id));
    SeenIsThere(o, ss[b - 1], ds, p, d, TrackOf(ss[b], id));
    SeenUpdates(o, ss[b - 1], ds, p, d, TrackOf(ss[b], id));
    k := d;
  }

  lemma WasMissed(o: Options, ss: seq<Snapshot>, b: nat, id: int) returns (x: Track)
    requires History(o, ss) && 0 < b < |ss| && HasId(ss[b - 1], id) && HasId(ss[b], id) && !ReportsId(ss[b], id)
    ensures x == TrackOf(ss[b - 1], id) && x.kalman.Shaped() && TrackOf(ss[b], id) == Unmatched(x)
  {
    hide Healthy, Missed, Came, Reported, Unmatched, Reaches;
    NotReported(ss[b], id);
    HeldIdsAreOld(o, ss, b - 1, id);
    var ds := HistoryCame(o, ss, b, id);
    var p, k := OldTrackCame(o, ss[b - 1], ds, TrackOf(ss[b], id));
    MissedIsThere(o, ss[b - 1], p, TrackOf(ss[b], id));
    x := ss[b - 1].tracks[p];
  }

  lemma BoxOfMean(mean: Matrix)
    requires IsMatrix(mean, 8, 1)
    ensures var b := Kalman.ToBox(mean);
      b.CenterX() == mean[0][0] && b.CenterY() == mean[1][0] && b.Height() == mean[3][0]
  {
  }

  /** What a track started from one box is when the next frame's associations look at it. */
  lemma BaseOfBorn(d: Detection, id: int, frame: int)
    ensures Born(d, id, frame).kalman.Shaped()
    ensures var s := Kalman.Initiate(Kalman.ToMeasurement(d.box));
      Base(Born(d, id, frame)).kalman == if frame == 1 then Kalman.Predicted(s) else s
  {
    hide Kalman.Predicted, Kalman.Initiate;
  }

  /** How far a new track follows its second sighting, and how much of that becomes its velocity. */
  function SecondShare(a: int): real { if a == 1 then 105.0 / 121.0 else 4.0 / 5.0 }
  function SecondSpeed(a: int): real { if a == 1 then 25.0 / 121.0 else 0.0 }

  /** b stands between two boxes, a share of the way from the first to the second, by centre and height. */
  ghost predicate OnTheWay(from: Box, to: Box, share: real, b: Box) {
    && b.CenterX() == from.CenterX() + Mul(share, to.CenterX() - from.CenterX())
    && b.CenterY() == from.CenterY() + Mul(share, to.CenterY() - from.CenterY())
    && b.Height() == from.Height() + Mul(share, to.Height() - from.Height())
  }

  /** The velocities of a mean are a share of the way between two boxes. */
  ghost predicate MovesAlong(from: Box, to: Box, share: real, mean: Matrix)
    requires IsMatrix(mean, 8, 1)
  {
    && mean[4][0] == Mul(share, to.CenterX() - from.CenterX())
    && mean[5][0] == Mul(share, to.CenterY() - from.CenterY())
    && mean[7][0] == Mul(share, to.Height() - from.Height())
  }

  /**
    Where a track stands when it is seen again in the frame after its first, by the k-th detection of
    that frame: four fifths of the way from where it stood to where it was seen, and at rest; but a
    track of frame 1, which needed no confirmation and has been predicted, 105 parts in 121 of the
    way, and moving.
   */
  lemma SecondSighting(o: Options, ss: seq<Snapshot>, a: nat, ds: seq<Detection>, log: Log, after: seq<Track>, id: int)
    returns (k: nat)
    requires History(o, ss) && 0 < a && a + 1 < |ss| && Advances(o, ss[a], ds, log, after, ss[a + 1])
    requires HasId(ss[a], id) && !HasId(ss[a - 1], id) && ReportsId(ss[a + 1], id)
    ensures k < |ds| && HasId(ss[a + 1], id)
    ensures TrackOf(ss[a + 1], id).score == ds[k].score && TrackOf(ss[a + 1], id).classId == ds[k].classId
    ensures TrackOf(ss[a], id).kalman.Shaped()
    ensures var first, y := Kalman.ToBox(TrackOf(ss[a], id).kalman.mean), TrackOf(ss[a + 1], id).kalman;
      first.Height() != 0.0 ==>
        && y.Shaped() && OnTheWay(first, ds[k].box, SecondShare(a), Kalman.ToBox(y.mean))
        && MovesAlong(first, ds[k].box, SecondSpeed(a), y.mean)
  {
    hide Born, Reported, Kalman.ToBox, Kalman.Predicted, Kalman.Initiate, Kalman.UpdatedBy, OnTheWay, MovesAlong,
      Box.Height, Base, Advances;
    var d := FirstSighting(o, ss, a, id);
    k := WasSeen(o, ss, a + 1, ds, log, after, id);
    if Kalman.ToBox(TrackOf(ss[a], id).kalman.mean).Height() != 0.0 {
      SecondUpdate(d, ds[k], id, a, TrackOf(ss[a + 1], id).kalman);
    }
  }

  lemma SecondUpdate(d1: Detection, d2: Detection, id: int, a: nat, y: Kalman.State)
    requires 0 < a && Born(d1, id, a).kalman.Shaped() && Base(Born(d1, id, a)).kalman.Shaped()
    requires Kalman.ToBox(Born(d1, id, a).kalman.mean).Height() != 0.0
    requires Kalman.UpdatedBy(Base(Born(d1, id, a)).kalman, Kalman.ToMeasurement(d2.box), y)
    ensures y.Shaped()
    ensures var first := Kalman.ToBox(Born(d1, id, a).kalman.mean);
      OnTheWay(first, d2.box, SecondShare(a), Kalman.ToBox(y.mean)) && MovesAlong(first, d2.box, SecondSpeed(a), y.mean)
  {
    hide Kalman.ToBox, Kalman.Predicted, Kalman.Initiate, Kalman.UpdatedBy, Mul, Base, Box.CenterX, Box.CenterY,
      Box.Height;
    var z1, z2 := Kalman.ToMeasurement(d1.box), Kalman.ToMeasurement(d2.box);
    BaseOfBorn(d1, id, a);
    BoxOfMean(Born(d1, id, a).kalman.mean);
    if a == 1 {
      PredictedTrackMoves(z1, z2, y);
    } else {
      FreshTrackMoves(z1, z2, y);
      NoneOf(z2[0][0] - z1[0][0]);
      NoneOf(z2[1][0] - z1[1][0]);
      NoneOf(z2[3][0] - z1[3][0]);
    }
    BoxOfMean(y.mean);
  }

  lemma NoneOf(x: real)
    ensures Mul(0.0, x) == 0.0
  {
  }

  // ---------- out of sight ----------

  /** Entry i has moved on by its velocity, n times. */
  ghost predicate Glides(x: Kalman.State, n: nat, y: Kalman.State, i: nat)
    requires x.Shaped() && y.Shaped() && i < 4
  {
    y.mean[i][0] == x.mean[i][0] + Mul(n as real, x.mean[i + 4][0]) && y.mean[i + 4][0] == x.mean[i + 4][0]
  }

  /** A track out of sight for n frames: it has moved on by its velocity, but grown for one frame only. */
  ghost predicate Drifted(x: Kalman.State, n: nat, y: Kalman.State) {
    && x.Shaped() && y.Shaped()
    && Glides(x, n, y, 0) && Glides(x, n, y, 1) && Glides(x, n, y, 2)
    && y.mean[3][0] == x.mean[3][0] + (if n > 0 then x.mean[7][0] else 0.0)
    && y.mean[7][0] == if n > 1 then 0.0 else x.mean[7][0]
  }

  lemma NotMoved(x: Kalman.State, n: nat)
    requires x.Shaped() && n == 0
    ensures Drifted(x, n, x)
  {
    hide Mul;
    NoneOf(x.mean[4][0]);
    NoneOf(x.mean[5][0]);
    NoneOf(x.mean[6][0]);
  }

  lemma GlidesOn(x: Kalman.State, n: nat, y: Kalman.State, z: Kalman.State, i: nat)
    requires x.Shaped() && y.Shaped() && z.Shaped() && i < 4 && Glides(x, n, y, i)
    requires z.mean[i][0] == y.mean[i][0] + y.mean[i + 4][0] && z.mean[i + 4][0] == y.mean[i + 4][0]
    ensures Glides(x, n + 1, z, i)
  {
    hide Mul;
    OneMore(n, x.mean[i + 4][0]);
  }

  lemma DriftsOn(x: Kalman.State, n: nat, y: Track)
    requires Drifted(x, n, y.kalman) && !Tentative(y) && (y.state.Tracked? <==> n == 0)
    ensures y.kalman.Shaped() && Drifted(x, n + 1, Unmatched(y).kalman)
  {
    hide Kalman.Predicted, Glides;
    var s := Frozen(y);
    EntryMoves(s, 0);
    EntryMoves(s, 1);
    EntryMoves(s, 2);
    EntryMoves(s, 3);
    GlidesOn(x, n, y.kalman, Kalman.Predicted(s), 0);
    GlidesOn(x, n, y.kalman, Kalman.Predicted(s), 1);
    GlidesOn(x, n, y.kalman, Kalman.Predicted(s), 2);
  }

  lemma EntryMoves(s: Kalman.State, i: nat)
    requires s.Shaped() && i < 4
    ensures Kalman.Predicted(s).Shaped()
    ensures Kalman.Predicted(s).mean[i][0] == s.mean[i][0] + s.mean[i + 4][0]
    ensures Kalman.Predicted(s).mean[i + 4][0] == s.mean[i + 4][0]
  {
    hide Kalman.Predicted;
    PredictedMean(s, i);
    PredictedMean(s, i + 4);
  }

  lemma OneMore(n: nat, v: real)
    ensures Mul((n + 1) as real, v) == Mul(n as real, v) + v
  {
    assert (n + 1) as real == n as real + 1.0;
    assert (n as real + 1.0) * v == n as real * v + v;
  }

  lemma {:induction false} DriftsTo(o: Options, ss: seq<Snapshot>, a: nat, b: nat, id: int)
    requires History(o, ss) && a <= b < |ss| && ReportsId(ss[a], id) && HasId(ss[b], id)
    requires forall j :: a < j <= b ==> !ReportsId(ss[j], id)
    requires HasId(ss[a], id) && TrackOf(ss[a], id).kalman.Shaped()
    ensures Drifted(TrackOf(ss[a], id).kalman, b - a, TrackOf(ss[b], id).kalman)
    decreases b - a
  {
    hide Healthy, Seen, Missed, Appeared, Drifted, Reaches, Came, Unmatched;
    HistoryIsHealthy(o, ss, a);
    if a == b {
      NotMoved(TrackOf(ss[a], id).kalman, b - a);
    } else {
      HeldIdsAreOld(o, ss, a, id);
      NextIdGrows(o, ss, a, b - 1);
      if !HasId(ss[b - 1], id) {
        IdsAreNeverReused(o, ss, b - 1, b, id);
      }
      DriftsTo(o, ss, a, b - 1, id);
      UnseenSince(o, ss, a, b - 1, id);
      var x := WasMissed(o, ss, b, id);
      if b - 1 == a {
        ReportedIsCurrent(o, ss[a], id);
      } else {
        LostIsNotTentative(x);
      }
      DriftsOn(TrackOf(ss[a], id).kalman, b - 1 - a, x);
    }
  }

  lemma LostIsNotTentative(x: Track)
    requires x.state.Lost?
    ensures !Tentative(x)
  {
  }

  /**
    A lost track moves on along a straight line, at the velocity it had when it was last seen, and
    grows for one frame only.
   */
  lemma LostTracksDrift(o: Options, ss: seq<Snapshot>, a: nat, b: nat, id: int)
    requires History(o, ss) && a < b < |ss| && ReportsId(ss[a], id) && HasId(ss[b], id)
    requires forall j :: a < j <= b ==> !ReportsId(ss[j], id)
    ensures HasId(ss[a], id) && Drifted(TrackOf(ss[a], id).kalman, b - a, TrackOf(ss[b], id).kalman)
  {
    hide Healthy, Reaches, Drifted;
    HistoryIsHealthy(o, ss, a);
    ReportedIsCurrent(o, ss[a], id);
    assert Reaches(o, ss[a], ss[a + 1]);
    ReachedIsShaped(o, ss[a], ss[a + 1]);
    DriftsTo(o, ss, a, b, id);
  }

  lemma ReachedIsShaped(o: Options, s: Snapshot, t: Snapshot)
    requires Reaches(o, s, t)
    ensures AllShaped(s.tracks)
  {
  }
}
