/**
  Building runs: how a schedule grows by a step, how capture reads a frame, how a pipeline whose
  capture thread has left comes to rest, and what a run without stop requests can not do.
 */
module PipelineSchedules {
  import opened HandOff
  import opened Pipeline
  import opened PipelineFrames
  import opened PipelineShutdown
  import opened PipelineTermination
  import opened PipelineAccounting

  /** Where a schedule leads from the start. */
  ghost function End(c: Config, es: seq<Event>): State
    requires c.Valid() && Follows(c, Init(c), es)
  {
    Run(c, Init(c), es)
  }

  /** A whole run in which nothing fails: at its end all five threads have exited. */
  ghost predicate Finished(c: Config, es: seq<Event>)
    requires c.Valid()
  {
    && Follows(c, Init(c), es) && Shaped(End(c, es))
    && AllExited(End(c, es)) && !End(c, es).history.failed
  }

  /** A whole run that ends by the end of the source or by the frame limit. */
  ghost predicate EndsByItself(c: Config, es: seq<Event>)
    requires c.Valid()
  {
    Finished(c, es) && !End(c, es).signals.stop
  }

  // ---------- one step more ----------

  lemma {:induction false} OneStepMore(c: Config, s: State, es: seq<Event>, e: Event)
    requires c.Valid() && Follows(c, s, es) && Shaped(Run(c, s, es)) && Enabled(c, Run(c, s, es), e)
    ensures Follows(c, s, es + [e]) && Run(c, s, es + [e]) == Step(c, Run(c, s, es), e)
    decreases |es|
  {
    hide Step, Enabled, Config.Capacity;
    if es == [] {
      assert [e][1..] == [];
    } else {
      OneStepMore(c, Step(c, s, es[0]), es[1..], e);
      assert (es + [e])[1..] == es[1..] + [e];
    }
  }

  lemma {:induction false} OneRunMore(c: Config, s: State, es: seq<Event>, more: seq<Event>)
    requires c.Valid() && Follows(c, s, es) && Follows(c, Run(c, s, es), more)
    ensures Follows(c, s, es + more) && Run(c, s, es + more) == Run(c, Run(c, s, es), more)
    decreases |es|
  {
    hide Step, Enabled, Config.Capacity;
    if es == [] {
      assert es + more == more;
    } else {
      OneRunMore(c, Step(c, s, es[0]), es[1..], more);
      assert (es + more)[1..] == es[1..] + more;
    }
  }

  lemma CaptureGoesOn(c: Config, es: seq<Event>, o: Outcome) returns (more: seq<Event>)
    requires c.Valid() && Follows(c, Init(c), es) && Shaped(End(c, es)) && CaptureEnabled(c, End(c, es), o)
    ensures Follows(c, Init(c), more) && End(c, more) == CaptureStep(c, End(c, es), o)
  {
    hide CaptureStep, CaptureEnabled, StageStep;
    OneStepMore(c, Init(c), es, CaptureMoves(o));
    more := es + [CaptureMoves(o)];
  }

  lemma StageGoesOn(c: Config, es: seq<Event>, i: nat) returns (more: seq<Event>)
    requires c.Valid() && Follows(c, Init(c), es) && Shaped(End(c, es)) && i < 4 && StageEnabled(c, End(c, es), i)
    ensures Follows(c, Init(c), more) && End(c, more) == StageStep(c, End(c, es), i, Returns)
  {
    hide CaptureStep, StageEnabled, StageStep;
    OneStepMore(c, Init(c), es, StageMoves(i, Returns));
    more := es + [StageMoves(i, Returns)];
  }

  // ---------- capture reads a frame ----------

  /** Capture is at the top of its loop and may read. */
  ghost predicate MayRead(c: Config, s: State) {
    && Shaped(s) && s.capture == CheckStop && !s.signals.stop && !s.signals.aborted
    && (c.maxFrames == 0 || s.tally.nextSeq < c.maxFrames) && |s.free| > 0
  }

  /** Capture holds the frame acquired last. */
  function Held(s: State): Frame
    requires |s.free| > 0
  {
    Frame(s.free[|s.free| - 1], s.tally.nextSeq)
  }

  lemma CaptureAcquires(c: Config, es: seq<Event>) returns (more: seq<Event>)
    requires c.Valid() && Follows(c, Init(c), es) && MayRead(c, End(c, es))
    ensures Follows(c, Init(c), more)
    ensures var s := End(c, es);
      End(c, more) == s.(free := s.free[..|s.free| - 1], capture := Reading(s.free[|s.free| - 1]))
  {
    hide Follows, Run, Init, Config.Capacity;
    more := CaptureGoesOn(c, es, Returns);
    more := CaptureGoesOn(c, more, Returns);
    more := CaptureGoesOn(c, more, Returns);
  }

  lemma CaptureReads(c: Config, es: seq<Event>) returns (more: seq<Event>)
    requires c.Valid() && Follows(c, Init(c), es) && MayRead(c, End(c, es))
    ensures Follows(c, Init(c), more)
    ensures var s := End(c, es);
      End(c, more) == s.(free := s.free[..|s.free| - 1], capture := Pushing(Checking(Held(s))),
                         tally := s.tally.(nextSeq := s.tally.nextSeq + 1))
  {
    hide Follows, Run, Init, Config.Capacity, MayRead;
    more := CaptureAcquires(c, es);
    MayReadIsShaped(c, End(c, es));
    more := CaptureGoesOn(c, more, Returns);
  }

  lemma MayReadIsShaped(c: Config, s: State)
    requires MayRead(c, s)
    ensures Shaped(s) && |s.free| > 0
  {
  }

  // ---------- the stages come to rest ----------

  /** With capture gone and nothing failed, a step of a stage whose body returns is a quiet one. */
  lemma StageIsQuiet(c: Config, s: State, i: nat)
    requires c.Valid() && Shaped(s) && i < 4 && StageEnabled(c, s, i) && FailureControl(s) && !s.history.failed
    ensures var t := StageStep(c, s, i, Returns);
      && t.signals == s.signals && t.capture == s.capture && !t.history.failed
      && t.history.admitted == s.history.admitted && t.tally.nextSeq == s.tally.nextSeq
  {
    hide Config.Capacity, CanPush, PushStep, AbortStep, CloseQueue;
    match s.stages[i]
    case Handing(p) => if p.Releasing? {} else if p.Returned? {} else {}
    case Body(f) => if i == SINK {} else {}
    case Pop => if |s.queues[i].items| > 0 {} else {}
    case CloseOutput =>
      if i < SINK {
        CloseOnlyCloses(s, i + 1);
      }
    case CheckAbort(_) =>
    case CountDone(_) =>
    case Release(_, _) =>
    case CountDrop(_) =>
  }

  /** When capture has left, the stages finish without a failure, whatever is still under way. */
  lemma {:induction false} StagesFinish(c: Config, s: State) returns (es: seq<Event>)
    requires c.Valid() && FramesInv(c, s) && Control(s) && Shaped(s) && FailureControl(s)
    requires s.capture.Exited? && !s.history.failed
    ensures Follows(c, s, es) && Shaped(Run(c, s, es)) && AllExited(Run(c, s, es))
    ensures var t := Run(c, s, es);
      && t.signals == s.signals && !t.history.failed
      && t.history.admitted == s.history.admitted && t.tally.nextSeq == s.tally.nextSeq
    decreases Rank(c, s)
  {
    hide Control, FramesInv, FailureControl, Rank, StageStep, StageEnabled, Config.Capacity, Config.Frames;
    if AllExited(s) {
      es := [];
    } else {
      NoDeadlock(c, s);
      var i :| 0 <= i < 4 && StageEnabled(c, s, i);
      var e := StageMoves(i, Returns);
      StepKeepsFrames(c, s, e);
      StepKeepsControl(c, s, e);
      StepKeepsFailures(c, s, e);
      StageLowersRank(c, s, i, Returns);
      StageIsQuiet(c, s, i);
      var rest := StagesFinish(c, Step(c, s, e));
      es := [e] + rest;
      assert es[1..] == rest;
    }
  }

  /** The same, for a schedule from the start. */
  lemma RunFinishes(c: Config, es: seq<Event>) returns (more: seq<Event>)
    requires c.Valid() && Follows(c, Init(c), es) && End(c, es).capture.Exited? && !End(c, es).history.failed
    ensures Finished(c, more)
    ensures End(c, more).signals == End(c, es).signals && End(c, more).history.admitted == End(c, es).history.admitted
    ensures End(c, more).tally.nextSeq == End(c, es).tally.nextSeq
  {
    hide Step, Enabled, Control, FailureControl, Books, Config.Capacity, Config.Frames, FramesInv;
    InitSound(c);
    RunKeepsSound(c, Init(c), es);
    var rest := StagesFinish(c, End(c, es));
    OneRunMore(c, Init(c), es, rest);
    more := es + rest;
  }

  // ---------- runs without stop requests ----------

  /** Nobody asks the pipeline to stop. */
  ghost predicate NoStops(es: seq<Event>) {
    forall k :: 0 <= k < |es| ==> !es[k].RequestStop?
  }

  lemma {:induction false} FailedRunStaysFailed(c: Config, s: State, es: seq<Event>)
    requires c.Valid() && Sound(c, s) && Shaped(s) && Follows(c, s, es) && s.history.failed
    ensures Run(c, s, es).history.failed
    decreases |es|
  {
    hide FramesInv, Control, FailureControl, Completion, Step, Enabled, Config.Capacity;
    if es != [] {
      StepKeepsSound(c, s, es[0]);
      FailureStays(c, s, es[0]);
      FailedRunStaysFailed(c, Step(c, s, es[0]), es[1..]);
    }
  }

  /** Only a request, or an abort, sets the stop flag. */
  lemma StepLeavesStop(c: Config, s: State, e: Event)
    requires c.Valid() && Shaped(s) && Enabled(c, s, e) && FailureControl(s) && !s.history.failed
    requires !e.RequestStop?
    ensures Step(c, s, e).signals.stop == s.signals.stop
  {
    hide Config.Capacity, CanPush, PushStep, CloseQueue, AbortStep;
    match e
    case CaptureMoves(o) =>
      match s.capture {
        case Pushing(p) => if p.Releasing? {} else if p.Returned? {} else {}
        case Reading(_) => if o.Returns? {} else if o.Ends? {} else {}
        case CloseIngress => CloseOnlyCloses(s, 0);
        case CheckStop =>
        case CheckAborted =>
        case Acquire =>
        case Dropped(_, _) =>
        case CountDrop(_) =>
        case Aborting(_) =>
        case Exited =>
      }
    case StageMoves(i, o) =>
      assert StageFails(s.stages[i]) ==> s.history.failed;
      match s.stages[i] {
        case Handing(p) => if p.Releasing? {} else if p.Returned? {} else {}
        case CloseOutput =>
          if i < SINK {
            CloseOnlyCloses(s, i + 1);
          }
        case Body(_) => if o.Throws? {} else if i == SINK {} else {}
        case Pop => if |s.queues[i].items| > 0 {} else {}
        case CheckAbort(_) =>
        case CountDone(_) =>
        case Release(_, _) =>
        case CountDrop(_) =>
        case Aborting(_) =>
        case Exited =>
      }
    case RunCallback => CloseOnlyCloses(s, 0);
  }

  /** A failure-free run without stop requests ends with the stop flag down. */
  lemma {:induction false} NoStopsNoFlag(c: Config, s: State, es: seq<Event>)
    requires c.Valid() && Sound(c, s) && Shaped(s) && Follows(c, s, es) && NoStops(es)
    requires !s.signals.stop && !Run(c, s, es).history.failed
    ensures !Run(c, s, es).signals.stop
    decreases |es|
  {
    hide FramesInv, Control, FailureControl, Books, Step, Enabled, Config.Capacity;
    if es != [] {
      StepKeepsSound(c, s, es[0]);
      if s.history.failed {
        FailedRunStaysFailed(c, s, es);
      } else {
        StepLeavesStop(c, s, es[0]);
        assert NoStops(es[1..]);
        NoStopsNoFlag(c, Step(c, s, es[0]), es[1..]);
      }
    }
  }
}
