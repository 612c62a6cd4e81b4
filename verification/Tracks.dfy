/**
  What one tracker update does, as a relation between track lists: three associations in a row,
  the fate of everything left over, new tracks, and ageing. Which pairs an association picks is
  fixed up to ties by its cost: it is a cheapest gated matching.
 */
module Tracks {
  import opened Detections
  import opened GatedMatching
  import opened LinearAssignment
  import Kalman = BoxKalmanFilter

  datatype TrackState = Tracked | Lost | Removed

  datatype Track = Track(
    id: int, kalman: Kalman.State, score: real, classId: int,
    state: TrackState, activated: bool, startFrame: int, lastFrame: int)

  datatype Options = Options(
    highThreshold: real, lowThreshold: real, newTrackThreshold: real, matchThreshold: real,
    trackBuffer: int, frameRate: real, fuseScore: bool)

  datatype TrackedObject = TrackedObject(trackId: int, box: Box, score: real, classId: int, ageFrames: int)

  const SECOND_STAGE_COST_LIMIT := 0.5
  const UNCONFIRMED_COST_LIMIT := 0.7

  /** Conversion to an integer drops the fraction. */
  function Truncated(x: real): int {
    if x >= 0.0 then x.Floor else -((-x).Floor)
  }

  function MaxTimeLost(o: Options): int {
    Truncated(o.frameRate / 30.0 * o.trackBuffer as real)
  }

  // ---------- lists of indices ----------

  /** The indices below n whose flag is set, in order. */
  function Where(flags: seq<bool>, n: nat): seq<int>
    requires n <= |flags|
  {
    if n == 0 then [] else if flags[n - 1] then Where(flags, n - 1) + [n - 1] else Where(flags, n - 1)
  }

  lemma WhereNext(flags: seq<bool>, n: nat)
    requires n < |flags|
    ensures Where(flags, n + 1) == if flags[n] then Where(flags, n) + [n] else Where(flags, n)
  {
  }

  /** The members of a list whose flag is set, in order. */
  function Keep(list: seq<int>, flags: seq<bool>): seq<int>
    requires forall i :: 0 <= i < |list| ==> 0 <= list[i] < |flags|
  {
    if |list| == 0 then []
    else
      var n := |list| - 1;
      if flags[list[n]] then Keep(list[..n], flags) + [list[n]] else Keep(list[..n], flags)
  }

  function Pick(list: seq<int>, at: seq<int>): (r: seq<int>)
    requires forall i :: 0 <= i < |at| ==> 0 <= at[i] < |list|
    ensures |r| == |at| && forall i :: 0 <= i < |at| ==> r[i] == list[at[i]]
  {
    seq(|at|, i requires 0 <= i < |at| => list[at[i]])
  }

  /** In increasing order, each at least 0 and below n. */
  ghost predicate Ascending(list: seq<int>, n: nat) {
    (forall i, j :: 0 <= i < j < |list| ==> list[i] < list[j]) && forall i :: 0 <= i < |list| ==> 0 <= list[i] < n
  }

  lemma {:induction false} WhereIs(flags: seq<bool>, n: nat)
    requires n <= |flags|
    ensures Ascending(Where(flags, n), n)
    ensures forall x :: x in Where(flags, n) <==> 0 <= x < n && flags[x]
  {
    if n > 0 {
      WhereIs(flags, n - 1);
    }
  }

  lemma {:induction false} KeepMembers(list: seq<int>, flags: seq<bool>)
    requires forall i :: 0 <= i < |list| ==> 0 <= list[i] < |flags|
    ensures forall x :: x in Keep(list, flags) <==> x in list && 0 <= x < |flags| && flags[x]
  {
    if |list| > 0 {
      var n := |list| - 1;
      KeepMembers(list[..n], flags);
      assert list == list[..n] + [list[n]];
    }
  }

  lemma {:induction false} KeepIs(list: seq<int>, flags: seq<bool>)
    requires Ascending(list, |flags|)
    ensures Ascending(Keep(list, flags), |flags|)
    ensures forall x :: x in Keep(list, flags) <==> x in list && 0 <= x < |flags| && flags[x]
  {
    KeepMembers(list, flags);
    if |list| > 0 {
      var n := |list| - 1;
      KeepIs(list[..n], flags);
      var k := Keep(list[..n], flags);
      forall i | 0 <= i < |k| ensures k[i] < list[n] {
        assert k[i] in list[..n];
      }
    }
  }

  lemma MissingAscends(taken: set<int>, k: nat)
    ensures Ascending(Missing(taken, k), k)
  {
    MissingIsComplement(taken, k);
    var m := Missing(taken, k);
    assert forall i :: 0 <= i < |m| ==> m[i] in m;
  }

  lemma PickIs(list: seq<int>, at: seq<int>, n: nat)
    requires Ascending(list, n) && Ascending(at, |list|)
    ensures Ascending(Pick(list, at), n)
    ensures forall x :: x in Pick(list, at) <==> exists k :: k in at && list[k] == x
  {
    var r := Pick(list, at);
    forall x ensures x in r <==> exists k :: k in at && list[k] == x {
      if x in r {
        var i :| 0 <= i < |r| && r[i] == x;
        assert at[i] in at;
      }
      if k :| k in at && list[k] == x {
        var i :| 0 <= i < |at| && at[i] == k;
        assert r[i] == x;
      }
    }
  }

  // ---------- associations ----------

  /** A matching between listed tracks and listed detections; pairs are positions in the two lists. */
  datatype Association = Association(rows: seq<int>, cols: seq<int>, pairs: seq<Pair>) {
    ghost predicate InRange() {
      forall i :: 0 <= i < |pairs| ==> 0 <= pairs[i].0 < |rows| && 0 <= pairs[i].1 < |cols|
    }

    /** The pairs, as indices of tracks and of detections. */
    ghost function Matches(): (m: seq<Pair>)
      requires InRange()
      ensures |m| == |pairs| && forall i :: 0 <= i < |m| ==> m[i] == (rows[pairs[i].0], cols[pairs[i].1])
    {
      seq(|pairs|, i requires 0 <= i < |pairs| => (rows[pairs[i].0], cols[pairs[i].1]))
    }

    ghost function RowsLeft(): seq<int>
    {
      MissingAscends(RowsOf(pairs), |rows|);
      Pick(rows, Missing(RowsOf(pairs), |rows|))
    }

    ghost function ColsLeft(): seq<int>
    {
      MissingAscends(ColsOf(pairs), |cols|);
      Pick(cols, Missing(ColsOf(pairs), |cols|))
    }
  }

  /** 1 - IoU, with the overlap weighted by the score if so configured. */
  function Dissimilarity(track: Track, d: Detection, fuse: bool): real
    requires track.kalman.Shaped()
  {
    var overlap := Iou(Kalman.ToBox(track.kalman.mean), d.box);
    1.0 - if fuse then overlap * d.score else overlap
  }

  ghost predicate AllShaped(tracks: seq<Track>) {
    forall t :: 0 <= t < |tracks| ==> tracks[t].kalman.Shaped()
  }

  ghost predicate Within(list: seq<int>, n: nat) {
    forall i :: 0 <= i < |list| ==> 0 <= list[i] < n
  }

  ghost function CostProblem(tracks: seq<Track>, ds: seq<Detection>, rows: seq<int>, cols: seq<int>,
      limit: real, fuse: bool): (p: Problem)
    requires AllShaped(tracks) && Within(rows, |tracks|) && Within(cols, |ds|)
    ensures p.Valid() && p.rows == |rows| && p.cols == |cols| && p.limit == limit
    ensures forall r, c :: 0 <= r < |rows| && 0 <= c < |cols| ==>
      p.cost[r][c] == Dissimilarity(tracks[rows[r]], ds[cols[c]], fuse)
  {
    Problem(|rows|, |cols|,
      seq(|rows|, r requires 0 <= r < |rows| =>
        seq(|cols|, c requires 0 <= c < |cols| => Dissimilarity(tracks[rows[r]], ds[cols[c]], fuse))),
      limit)
  }

  /** The association is a gated matching, and no gated matching is cheaper. */
  ghost predicate Associates(tracks: seq<Track>, ds: seq<Detection>, limit: real, fuse: bool, a: Association)
    requires AllShaped(tracks)
  {
    && Within(a.rows, |tracks|) && Within(a.cols, |ds|)
    && var p := CostProblem(tracks, ds, a.rows, a.cols, limit, fuse);
       p.IsGatedMatching(a.pairs) && (limit <= FORBIDDEN ==> p.Optimal(a.pairs))
  }

  // ---------- the fate of one track ----------

  /** Seen once, and not on the first frame. */
  predicate Tentative(x: Track) {
    x.state.Tracked? && !x.activated
  }

  /** Before predicting, a lost track stops growing. */
  function Frozen(x: Track): Kalman.State
    requires x.kalman.Shaped()
  {
    if x.state.Tracked? then x.kalman else x.kalman.(mean := x.kalman.mean[7 := [0.0]])
  }

  ghost function Prepared(x: Track): Track
    requires x.kalman.Shaped()
  {
    x.(kalman := Kalman.Predicted(Frozen(x)))
  }

  /** The track as the associations see it: tentative ones are not predicted. */
  ghost function Base(x: Track): Track
    requires x.kalman.Shaped()
  {
    if Tentative(x) then x else Prepared(x)
  }

  ghost function Bases(tracks: seq<Track>): (b: seq<Track>)
    requires AllShaped(tracks)
    ensures |b| == |tracks| && forall t :: 0 <= t < |b| ==> b[t] == Base(tracks[t])
  {
    seq(|tracks|, t requires 0 <= t < |tracks| => Base(tracks[t]))
  }

  /** x was matched with d in this frame and became y. */
  ghost predicate MatchedTo(x: Track, d: Detection, frame: int, y: Track)
    requires x.kalman.Shaped()
  {
    && y == x.(kalman := y.kalman, score := d.score, classId := d.classId,
               state := Tracked, activated := true, lastFrame := frame)
    && Kalman.UpdatedBy(x.kalman, Kalman.ToMeasurement(d.box), y.kalman)
  }

  /** What becomes of a track nothing was matched with. */
  ghost function Unmatched(x: Track): Track
    requires x.kalman.Shaped()
  {
    if Tentative(x) then x.(state := Removed)
    else if x.state.Tracked? then Prepared(x).(state := Lost)
    else Prepared(x)
  }

  function Born(d: Detection, id: int, frame: int): Track {
    Track(id, Kalman.Initiate(Kalman.ToMeasurement(d.box)), d.score, d.classId, Tracked, frame == 1, frame, frame)
  }

  predicate TooOld(o: Options, frame: int, x: Track) {
    x.state.Lost? && frame - x.lastFrame > MaxTimeLost(o)
  }

  predicate Dies(o: Options, frame: int, x: Track) {
    x.state.Removed? || TooOld(o, frame, x)
  }

  /** The first n tracks, without those that are removed or have been lost for too long. */
  function Survivors(o: Options, frame: int, all: seq<Track>, n: nat): seq<Track>
    requires n <= |all|
  {
    if n == 0 then []
    else if Dies(o, frame, all[n - 1]) then Survivors(o, frame, all, n - 1)
    else Survivors(o, frame, all, n - 1) + [all[n - 1]]
  }

  predicate Reported(x: Track) {
    x.state.Tracked? && x.activated
  }

  function ReportOf(x: Track, frame: int): TrackedObject
    requires x.kalman.Shaped()
  {
    TrackedObject(x.id, Kalman.ToBox(x.kalman.mean), x.score, x.classId, frame - x.startFrame + 1)
  }

  /** What is reported: the confirmed tracks seen in this frame. */
  function Reports(tracks: seq<Track>, frame: int, n: nat): seq<TrackedObject>
    requires n <= |tracks| && forall t :: 0 <= t < |tracks| ==> tracks[t].kalman.Shaped()
  {
    if n == 0 then []
    else if Reported(tracks[n - 1]) then Reports(tracks, frame, n - 1) + [ReportOf(tracks[n - 1], frame)]
    else Reports(tracks, frame, n - 1)
  }

  // ---------- one update ----------

  predicate IsHigh(o: Options, d: Detection) {
    d.score >= o.highThreshold
  }

  predicate IsLow(o: Options, d: Detection) {
    !IsHigh(o, d) && d.score > o.lowThreshold
  }

  function HighFlags(o: Options, ds: seq<Detection>): (f: seq<bool>)
    ensures |f| == |ds| && forall i :: 0 <= i < |ds| ==> f[i] == IsHigh(o, ds[i])
  {
    seq(|ds|, i requires 0 <= i < |ds| => IsHigh(o, ds[i]))
  }

  function LowFlags(o: Options, ds: seq<Detection>): (f: seq<bool>)
    ensures |f| == |ds| && forall i :: 0 <= i < |ds| ==> f[i] == IsLow(o, ds[i])
  {
    seq(|ds|, i requires 0 <= i < |ds| => IsLow(o, ds[i]))
  }

  function NewFlags(o: Options, ds: seq<Detection>): (f: seq<bool>)
    ensures |f| == |ds| && forall i :: 0 <= i < |ds| ==> f[i] == (ds[i].score >= o.newTrackThreshold)
  {
    seq(|ds|, i requires 0 <= i < |ds| => ds[i].score >= o.newTrackThreshold)
  }

  function PoolFlags(tracks: seq<Track>): (f: seq<bool>)
    ensures |f| == |tracks|
    ensures forall t :: 0 <= t < |tracks| ==> f[t] == (!Tentative(tracks[t]) && !tracks[t].state.Removed?)
  {
    seq(|tracks|, t requires 0 <= t < |tracks| => !Tentative(tracks[t]) && !tracks[t].state.Removed?)
  }

  function TentativeFlags(tracks: seq<Track>): (f: seq<bool>)
    ensures |f| == |tracks| && forall t :: 0 <= t < |tracks| ==> f[t] == Tentative(tracks[t])
  {
    seq(|tracks|, t requires 0 <= t < |tracks| => Tentative(tracks[t]))
  }

  function TrackedFlags(tracks: seq<Track>): (f: seq<bool>)
    ensures |f| == |tracks| && forall t :: 0 <= t < |tracks| ==> f[t] == tracks[t].state.Tracked?
  {
    seq(|tracks|, t requires 0 <= t < |tracks| => tracks[t].state.Tracked?)
  }

  /** The three associations of an update. */
  datatype Log = Log(first: Association, second: Association, third: Association)

  /**
    Who takes part in which association: strong detections meet confirmed and lost tracks; weak
    ones the confirmed tracks still unmatched; what is left of the strong ones the tentative tracks.
   */
  ghost predicate Lineup(o: Options, before: seq<Track>, ds: seq<Detection>, log: Log) {
    && log.first.rows == Where(PoolFlags(before), |before|) && log.first.cols == Where(HighFlags(o, ds), |ds|)
    && Within(log.first.RowsLeft(), |before|)
    && log.second.rows == Keep(log.first.RowsLeft(), TrackedFlags(before))
       && log.second.cols == Where(LowFlags(o, ds), |ds|)
    && log.third.rows == Where(TentativeFlags(before), |before|) && log.third.cols == log.first.ColsLeft()
  }

  /** Each association is a cheapest one, at its limit. */
  ghost predicate Cheapest(o: Options, before: seq<Track>, ds: seq<Detection>, log: Log)
    requires AllShaped(before) && AllShaped(Bases(before))
  {
    && Associates(Bases(before), ds, o.matchThreshold, o.fuseScore, log.first)
    && Associates(Bases(before), ds, SECOND_STAGE_COST_LIMIT, false, log.second)
    && Associates(Bases(before), ds, UNCONFIRMED_COST_LIMIT, o.fuseScore, log.third)
  }

  ghost predicate LogInRange(log: Log) {
    log.first.InRange() && log.second.InRange() && log.third.InRange()
  }

  /** All pairs of track and detection that were matched in this update. */
  ghost function AllMatches(log: Log): seq<Pair>
    requires LogInRange(log)
  {
    log.first.Matches() + log.second.Matches() + log.third.Matches()
  }

  /** The detections that start new tracks: strong, unmatched, and strong enough for that. */
  ghost function Newborn(o: Options, ds: seq<Detection>, log: Log): seq<int>
    requires Within(log.third.ColsLeft(), |ds|)
  {
    Keep(log.third.ColsLeft(), NewFlags(o, ds))
  }

  ghost predicate MatchesTrack(m: seq<Pair>, t: int) {
    exists i :: 0 <= i < |m| && m[i].0 == t
  }

  ghost predicate MatchesDetection(m: seq<Pair>, d: int) {
    exists i :: 0 <= i < |m| && m[i].1 == d
  }

  ghost predicate PairsInRange(m: seq<Pair>, rows: nat, cols: nat) {
    forall i :: 0 <= i < |m| ==> 0 <= m[i].0 < rows && 0 <= m[i].1 < cols
  }

  /** The old tracks after the associations: matched ones follow their detection, the others take their fate. */
  ghost predicate Fates(before: seq<Track>, ds: seq<Detection>, frame: int, m: seq<Pair>, after: seq<Track>)
    requires AllShaped(before) && AllShaped(Bases(before)) && PairsInRange(m, |before|, |ds|)
  {
    && |after| == |before|
    && (forall i :: 0 <= i < |m| ==> MatchedTo(Bases(before)[m[i].0], ds[m[i].1], frame, after[m[i].0]))
    && (forall t :: 0 <= t < |before| && !MatchesTrack(m, t) ==> after[t] == Unmatched(before[t]))
  }

  /** New tracks are numbered from nextId on. */
  function Births(ds: seq<Detection>, born: seq<int>, nextId: int, frame: int): (b: seq<Track>)
    requires forall i :: 0 <= i < |born| ==> 0 <= born[i] < |ds|
    ensures |b| == |born| && forall k :: 0 <= k < |b| ==> b[k] == Born(ds[born[k]], nextId + k, frame)
  {
    seq(|born|, k requires 0 <= k < |born| => Born(ds[born[k]], nextId + k, frame))
  }

  datatype Snapshot = Snapshot(tracks: seq<Track>, frame: int, nextId: int)

  /** One update: `after` are the old tracks before ageing. */
  ghost predicate Advances(o: Options, s: Snapshot, ds: seq<Detection>, log: Log, after: seq<Track>, t: Snapshot) {
    && AllShaped(s.tracks) && AllShaped(Bases(s.tracks))
    && Lineup(o, s.tracks, ds, log) && Cheapest(o, s.tracks, ds, log)
    && LogInRange(log) && PairsInRange(AllMatches(log), |s.tracks|, |ds|) && Within(log.third.ColsLeft(), |ds|)
    && Within(Newborn(o, ds, log), |ds|)
    && Fates(s.tracks, ds, s.frame + 1, AllMatches(log), after)
    && var all := after + Births(ds, Newborn(o, ds, log), s.nextId, s.frame + 1);
       t == Snapshot(Survivors(o, s.frame + 1, all, |all|), s.frame + 1, s.nextId + |Newborn(o, ds, log)|)
  }
}
