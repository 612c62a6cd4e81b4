/**
  Which configurations deliver the final captured frame in every failure-free run that ends by
  itself. An ingress that drops new frames loses it as soon as it can be full while capture still
  has a frame to read and a frame of the pool to read it into; otherwise nothing can.
 */
module PipelineFinalFrame {
  import opened Common
  import opened HandOff
  import opened Pipeline
  import opened PipelineAccounting
  import opened PipelineDelivery
  import opened PipelineSchedules

  /** Capture has read k frames, all of them wait in the ingress, and no stage has moved. */
  ghost predicate Filling(c: Config, s: State, k: nat)
    requires c.Valid()
  {
    && Shaped(s) && s.capture == CheckStop && s.signals == Signals(false, false, false, false)
    && s.tally.nextSeq == k && k + |s.free| == c.Frames() && !s.history.failed
    && |s.queues[0].items| == k && !s.queues[0].closed && LastOf(s.history.admitted) == LastBelow(k)
  }

  /** Capture has read one frame more than the ingress has room for, and lost it. */
  ghost predicate Lost(c: Config, s: State, k: nat)
    requires c.Valid()
  {
    && Shaped(s) && s.capture == CheckStop && s.signals == Signals(false, false, false, false)
    && s.tally.nextSeq == k + 1 && |s.free| > 0 && !s.history.failed && LastOf(s.history.admitted) == LastBelow(k)
  }

  lemma StartsEmpty(c: Config)
    requires c.Valid()
    ensures Follows(c, Init(c), []) && End(c, []) == Init(c) && Filling(c, Init(c), 0)
  {
    hide Config.Frames, Config.Capacity;
  }

  lemma FillingMayRead(c: Config, s: State, k: nat)
    requires c.Valid() && Filling(c, s, k) && k < c.Frames() && (c.maxFrames == 0 || k < c.maxFrames)
    ensures MayRead(c, s)
  {
    hide Config.Frames, Config.Capacity;
  }

  /** Read one frame, and push it up to the point of insertion. */
  lemma ReadsOne(c: Config, es: seq<Event>, k: nat) returns (more: seq<Event>)
    requires c.Valid() && c.policy.DropNewest? && Follows(c, Init(c), es) && Filling(c, End(c, es), k)
    requires k < c.Frames() && (c.maxFrames == 0 || k < c.maxFrames)
    ensures Follows(c, Init(c), more) && Shaped(End(c, es)) && |End(c, es).free| > 0
    ensures var s := End(c, es);
      End(c, more) == s.(free := s.free[..|s.free| - 1], capture := Pushing(Inserting(Held(s))),
                         tally := s.tally.(nextSeq := k + 1))
  {
    hide Follows, Run, Init, Config.Frames, Config.Capacity, MayRead;
    FillingMayRead(c, End(c, es), k);
    more := CaptureReads(c, es);
    more := CaptureGoesOn(c, more, Returns);
  }

  /** While there is room, the frame goes into the ingress. */
  lemma FillsOneMore(c: Config, es: seq<Event>, k: nat) returns (more: seq<Event>)
    requires c.Valid() && c.policy.DropNewest? && Follows(c, Init(c), es) && Filling(c, End(c, es), k)
    requires k < c.Frames() && (c.maxFrames == 0 || k < c.maxFrames) && k < c.Capacity(0)
    ensures Follows(c, Init(c), more) && Filling(c, End(c, more), k + 1)
  {
    hide Follows, Run, Init, Config.Frames, Config.Capacity, MayRead;
    more := ReadsOne(c, es, k);
    more := CaptureGoesOn(c, more, Returns);
    more := CaptureGoesOn(c, more, Returns);
    more := CaptureGoesOn(c, more, Returns);
  }

  /** When there is none, it goes back to the pool. */
  lemma LosesOne(c: Config, es: seq<Event>) returns (more: seq<Event>)
    requires c.Valid() && c.policy.DropNewest? && Follows(c, Init(c), es) && Filling(c, End(c, es), c.Capacity(0))
    requires c.Capacity(0) < c.Frames() && (c.maxFrames == 0 || c.Capacity(0) < c.maxFrames)
    ensures Follows(c, Init(c), more) && Lost(c, End(c, more), c.Capacity(0))
  {
    hide Follows, Run, Init, Config.Frames, Config.Capacity, MayRead;
    more := ReadsOne(c, es, c.Capacity(0));
    more := CaptureGoesOn(c, more, Returns);
    more := CaptureGoesOn(c, more, Returns);
    more := CaptureGoesOn(c, more, Returns);
    more := CaptureGoesOn(c, more, Returns);
  }

  lemma {:induction false} FillsUpTo(c: Config, k: nat) returns (es: seq<Event>)
    requires c.Valid() && c.policy.DropNewest? && k <= c.Capacity(0)
    requires k <= c.Frames() && (c.maxFrames == 0 || k <= c.maxFrames)
    ensures Follows(c, Init(c), es) && Filling(c, End(c, es), k)
  {
    hide Follows, Run, Init, Config.Frames, Config.Capacity, Filling;
    if k == 0 {
      StartsEmpty(c);
      es := [];
    } else {
      es := FillsUpTo(c, k - 1);
      es := FillsOneMore(c, es, k - 1);
    }
  }

  /** Capture leaves: at the frame limit, or because the source ends. */
  lemma CaptureLeaves(c: Config, es: seq<Event>, k: nat) returns (more: seq<Event>)
    requires c.Valid() && Follows(c, Init(c), es) && Lost(c, End(c, es), k)
    requires c.maxFrames == 0 || k < c.maxFrames
    ensures Follows(c, Init(c), more)
    ensures var s := End(c, more);
      && Shaped(s) && s.capture.Exited? && !s.history.failed && !s.signals.stop
      && s.tally.nextSeq == k + 1 && LastOf(s.history.admitted) == LastBelow(k)
  {
    hide Follows, Run, Init, Config.Frames, Config.Capacity;
    if c.maxFrames == 0 || k + 1 < c.maxFrames {
      more := CaptureAcquires(c, es);
      more := CaptureGoesOn(c, more, Ends);
      more := CaptureGoesOn(c, more, Returns);
    } else {
      more := CaptureGoesOn(c, es, Returns);
      more := CaptureGoesOn(c, more, Returns);
    }
    CloseOnlyCloses(End(c, more), 0);
    more := CaptureGoesOn(c, more, Returns);
  }

  /** In every other configuration some run that ends by itself loses its final frame: here it is. */
  lemma FinalFrameCanBeLost(c: Config) returns (es: seq<Event>)
    requires c.Valid() && !KeepsFinalFrame(c)
    ensures EndsByItself(c, es) && End(c, es).tally.nextSeq == c.Capacity(0) + 1
    ensures LastOf(End(c, es).history.delivered) == LastBelow(c.Capacity(0))
  {
    hide Follows, Run, Init, Config.Frames, Config.Capacity, Filling, Lost, Sound;
    es := FillsUpTo(c, c.Capacity(0));
    es := LosesOne(c, es);
    es := CaptureLeaves(c, es, c.Capacity(0));
    es := RunFinishes(c, es);
    UnstoppedIsNotRaced(c, es);
    NewestGetsThrough(c, es);
  }

  lemma UnstoppedIsNotRaced(c: Config, es: seq<Event>)
    requires c.Valid() && EndsByItself(c, es)
    ensures !End(c, es).history.raced
  {
    hide Sound, Step, Enabled, Config.Capacity, Config.Frames;
    InitSound(c);
    RunKeepsSound(c, Init(c), es);
    NothingLeft(c, End(c, es));
  }

  /**
    For every configuration: the final captured frame is delivered in all failure-free runs that end
    by the end of the source or by the frame limit, if and only if the ingress does not drop new
    frames, or has room for as many frames as may be read, or for the whole pool.
   */
  lemma FinalFrameIsDeliveredExactlyIf(c: Config)
    requires c.Valid()
    ensures
      (forall es :: EndsByItself(c, es) ==>
         LastOf(End(c, es).history.delivered) == LastBelow(End(c, es).tally.nextSeq))
      <==> KeepsFinalFrame(c)
  {
    hide Follows, Run, Init, Config.Frames, Config.Capacity, KeepsFinalFrame;
    if KeepsFinalFrame(c) {
      forall es | EndsByItself(c, es)
        ensures LastOf(End(c, es).history.delivered) == LastBelow(End(c, es).tally.nextSeq)
      {
        FinalFrameIsDelivered(c, es);
      }
    } else {
      var es := FinalFrameCanBeLost(c);
    }
  }

  /** Room for one frame, a pool of two, and two frames to read. */
  const NARROW := Config(DropNewest, 1, 1, 2, 2)

  /** The smallest case: frame 1 is the final one, and the sinks see only frame 0. */
  lemma NarrowIngressLosesTheFinalFrame() returns (es: seq<Event>)
    ensures NARROW.Valid() && EndsByItself(NARROW, es)
    ensures var s := End(NARROW, es);
      s.tally.captured == 2 && s.tally.dropped == 1 && LastOf(s.history.delivered) == Some(0)
  {
    assert NARROW.Capacity(0) == 1;
    hide Follows, Run, Init;
    es := FinalFrameCanBeLost(NARROW);
    FinalFrameIsDelivered(NARROW, es);
    UnstoppedIsNotRaced(NARROW, es);
    OnlyOneIsDelivered(NARROW, es);
  }

  lemma OnlyOneIsDelivered(c: Config, es: seq<Event>)
    requires c.Valid() && EndsByItself(c, es) && LastOf(End(c, es).history.delivered) == Some(0)
    ensures End(c, es).tally.completed == 1
  {
    hide Sound, Step, Enabled, Config.Capacity, Config.Frames;
    InitSound(c);
    RunKeepsSound(c, Init(c), es);
    NothingLeft(c, End(c, es));
    var d := End(c, es).history.delivered;
    AtLeastIndex(d, End(c, es).tally.nextSeq, |d| - 1);
  }
}
