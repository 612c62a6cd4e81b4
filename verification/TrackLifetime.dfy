/**
  How long a tracker remembers. A track that has been reported is kept for as long as its last
  sighting is within the buffer, whatever is detected meanwhile; with the bound on how far two
  reports of an id can lie apart, that is the exact lifetime of a lost track.
 */
module TrackLifetime {
  import opened Detections
  import opened Tracks
  import opened TrackHistory
  import Kalman = BoxKalmanFilter

  /** The snapshot has a confirmed track with this id, seen no earlier than in frame `since`. */
  ghost predicate Remembers(s: Snapshot, id: int, since: int) {
    exists p :: 0 <= p < |s.tracks| && s.tracks[p].id == id && !Tentative(s.tracks[p]) && s.tracks[p].lastFrame >= since
  }

  /** A number of frames is within the buffer if and only if it is within its whole part. */
  lemma WithinBuffer(o: Options, n: int)
    requires n >= 1
    ensures n <= MaxTimeLost(o) <==> n as real <= o.frameRate / 30.0 * o.trackBuffer as real
  {
    var x := o.frameRate / 30.0 * o.trackBuffer as real;
    assert n <= x.Floor <==> n as real <= x;
  }

  /** What does not die is still there. */
  lemma LivesOn(o: Options, frame: int, all: seq<Track>, p: nat) returns (q: nat)
    requires p < |all| && !Dies(o, frame, all[p])
    ensures q < |Survivors(o, frame, all, |all|)| && Survivors(o, frame, all, |all|)[q] == all[p]
  {
    hide Dies, Survivors, Where;
    var flags := LiveFlags(o, frame, all);
    SurvivorsArePicked(o, frame, all, |all|);
    WhereIs(flags, |all|);
    var w := Where(flags, |all|);
    q :| 0 <= q < |w| && w[q] == p;
  }

  /** The fate of a confirmed track that was seen within the buffer. */
  lemma ConfirmedStays(o: Options, frame: int, nextId: int, x: Track, ds: seq<Detection>, d: int, y: Track)
    requires Sane(o, frame, nextId, x) && !Tentative(x) && x.kalman.Shaped() && Base(x).kalman.Shaped()
    requires (0 <= d < |ds| && MatchedTo(Base(x), ds[d], frame + 1, y)) || y == Unmatched(x)
    requires frame + 1 - x.lastFrame <= MaxTimeLost(o)
    ensures y.id == x.id && !Tentative(y) && y.lastFrame >= x.lastFrame && !Dies(o, frame + 1, y)
  {
    hide Kalman.UpdatedBy, Kalman.Predicted, MaxTimeLost;
  }

  lemma UpdateRemembers(o: Options, s: Snapshot, t: Snapshot, id: int, since: int)
    requires Healthy(o, s) && Reaches(o, s, t) && Remembers(s, id, since)
    requires (s.frame + 1 - since) as real <= o.frameRate / 30.0 * o.trackBuffer as real
    ensures Remembers(t, id, since)
  {
    hide Lineup, Cheapest, Association.Matches, Kalman.UpdatedBy, Kalman.Predicted, Fates, MatchedTo, Unmatched, Base,
      Dies, Newborn, AllMatches, Survivors, Association.ColsLeft, Born, Tentative, MaxTimeLost;
    var ds, log, after :| Advances(o, s, ds, log, after, t);
    var p :| 0 <= p < |s.tracks| && s.tracks[p].id == id && !Tentative(s.tracks[p]) && s.tracks[p].lastFrame >= since;
    var all := after + Births(ds, Newborn(o, ds, log), s.nextId, s.frame + 1);
    FatesLength(s.tracks, ds, s.frame + 1, AllMatches(log), after);
    var d := FateOf(s.tracks, ds, s.frame + 1, AllMatches(log), after, p);
    assert all[p] == after[p];
    var n := s.frame + 1 - s.tracks[p].lastFrame;
    assert Sane(o, s.frame, s.nextId, s.tracks[p]) && n >= 1;
    WithinBuffer(o, s.frame + 1 - since);
    ConfirmedStays(o, s.frame, s.nextId, s.tracks[p], ds, d, all[p]);
    var q := LivesOn(o, s.frame + 1, all, p);
  }

  /**
    A reported track is kept as long as its last report is within the buffer: it can be lost only
    after that, and until then it comes back, if it does, with the same id.
   */
  lemma {:induction false} LostTracksAreKept(o: Options, ss: seq<Snapshot>, a: nat, b: nat, id: int)
    requires History(o, ss) && a <= b < |ss| && ReportsId(ss[a], id)
    requires (b - a) as real <= o.frameRate / 30.0 * o.trackBuffer as real
    ensures HasId(ss[b], id) && Remembers(ss[b], id, a)
    decreases b - a
  {
    hide Reaches, Healthy, Sane;
    HistoryIsHealthy(o, ss, a);
    if a == b {
      ReportIsRemembered(o, ss[a], id);
    } else {
      LostTracksAreKept(o, ss, a, b - 1, id);
      HistoryIsHealthy(o, ss, b - 1);
      assert Reaches(o, ss[b - 1], ss[b - 1 + 1]);
      UpdateRemembers(o, ss[b - 1], ss[b], id, a);
    }
  }

  lemma ReportIsRemembered(o: Options, s: Snapshot, id: int)
    requires Healthy(o, s) && ReportsId(s, id)
    ensures HasId(s, id) && Remembers(s, id, s.frame)
  {
    var p :| 0 <= p < |s.tracks| && s.tracks[p].id == id && Reported(s.tracks[p]);
    assert Sane(o, s.frame, s.nextId, s.tracks[p]);
  }

  /** An unseen track was last seen when it was last reported. */
  lemma {:induction false} UnseenSince(o: Options, ss: seq<Snapshot>, a: nat, b: nat, id: int)
    requires History(o, ss) && a <= b < |ss| && ReportsId(ss[a], id) && HasId(ss[b], id)
    requires forall j :: a < j <= b ==> !ReportsId(ss[j], id)
    ensures Healthy(o, ss[b]) && TrackOf(ss[b], id).lastFrame == a && (b > a ==> TrackOf(ss[b], id).state.Lost?)
    decreases b - a
  {
    hide Reaches, Healthy, MaxTimeLost;
    HistoryIsHealthy(o, ss, a);
    HistoryIsHealthy(o, ss, b);
    ReportedIsCurrent(o, ss[a], id);
    if a < b {
      if !HasId(ss[b - 1], id) {
        HeldIdsAreOld(o, ss, a, id);
        NextIdGrows(o, ss, a, b - 1);
        IdsAreNeverReused(o, ss, b - 1, b, id);
      }
      UnseenSince(o, ss, a, b - 1, id);
      HistoryIsHealthy(o, ss, b - 1);
      assert Reaches(o, ss[b - 1], ss[b - 1 + 1]);
      SameTrackContinues(o, ss[b - 1], ss[b], id);
      NotReported(ss[b], id);
    }
  }

  /**
    The exact lifetime: a track that is not seen again is there in every frame up to the end of its
    buffer, and in none after it.
   */
  lemma LifetimeIsExact(o: Options, ss: seq<Snapshot>, a: nat, b: nat, id: int)
    requires History(o, ss) && a < b < |ss| && ReportsId(ss[a], id)
    requires forall j :: a < j <= b ==> !ReportsId(ss[j], id)
    ensures HasId(ss[b], id) <==> (b - a) as real <= o.frameRate / 30.0 * o.trackBuffer as real
  {
    hide Healthy, MaxTimeLost, Sane, Reaches;
    WithinBuffer(o, b - a);
    if HasId(ss[b], id) {
      UnseenSince(o, ss, a, b, id);
      HistoryIsHealthy(o, ss, b);
      LostIsYoung(o, ss[b], id);
    }
    if (b - a) as real <= o.frameRate / 30.0 * o.trackBuffer as real {
      LostTracksAreKept(o, ss, a, b, id);
    }
  }
}
