/**
  How the pipeline stops: which hand-offs are closed when, what `abort` has done so far, why no
  thread waits for ever, and why every run that is winding down ends.
 */
module PipelineShutdown {
  import opened HandOff
  import opened Pipeline
  import opened PipelineFrames

  /** What a thread that is about to take step k of `abort` has already done. */
  ghost predicate AbortProgress(s: State, k: nat)
    requires Shaped(s)
  {
    && k <= 6 && (k >= 2 ==> s.signals.aborted) && (k >= 3 ==> s.signals.stop)
    && (k >= 4 ==> s.queues[0].closed) && (k >= 5 ==> s.queues[1].closed) && (k >= 6 ==> s.queues[2].closed)
  }

  ghost predicate CaptureControl(s: State)
    requires Shaped(s)
  {
    match s.capture
    case Aborting(k) => AbortProgress(s, k)
    case Exited => s.queues[0].closed
    case _ => true
  }

  /** A stage that has left its loop has a closed input; one that has exited has closed its output. */
  ghost predicate StageControl(s: State, i: nat)
    requires Shaped(s) && i < 4
  {
    match s.stages[i]
    case Handing(_) => i < SINK
    case Aborting(k) => AbortProgress(s, k)
    case CloseOutput => s.queues[i].closed
    case Exited => s.queues[i].closed && (i < SINK ==> s.queues[i + 1].closed)
    case _ => true
  }

  /** Some thread has set `aborted` and is about to request the stop. */
  ghost predicate StopComing(s: State)
    requires Shaped(s)
  {
    || s.capture == Capture.Aborting(2)
    || s.stages[0] == Stage.Aborting(2) || s.stages[1] == Stage.Aborting(2)
    || s.stages[2] == Stage.Aborting(2) || s.stages[3] == Stage.Aborting(2)
  }

  /** Why a hand-off is closed. */
  ghost predicate ClosedFor(s: State, k: nat)
    requires Shaped(s) && k < 4
  {
    s.queues[k].closed ==>
      if k == 0 then s.signals.stop || s.capture.Exited? else s.signals.aborted || s.stages[k - 1].Exited?
  }

  ghost predicate Control(s: State) {
    && Shaped(s) && CaptureControl(s)
    && (forall i :: 0 <= i < 4 ==> StageControl(s, i))
    && (forall k :: 0 <= k < 4 ==> ClosedFor(s, k))
    && (s.signals.callbackPending ==> s.signals.stop)
    && (s.signals.aborted ==> s.signals.stop || StopComing(s))
  }

  /** Signals and closed hand-offs stay as they are, or are set. */
  ghost predicate Later(s: State, t: State) {
    && Shaped(s) && Shaped(t)
    && (s.queues[0].closed ==> t.queues[0].closed) && (s.queues[1].closed ==> t.queues[1].closed)
    && (s.queues[2].closed ==> t.queues[2].closed) && (s.queues[3].closed ==> t.queues[3].closed)
    && (s.signals.stop ==> t.signals.stop) && (s.signals.aborted ==> t.signals.aborted)
  }

  lemma LaterKeepsStage(s: State, t: State, i: nat)
    requires Later(s, t) && i < 4 && StageControl(s, i) && t.stages[i] == s.stages[i]
    ensures StageControl(t, i)
  {
    var q := s.queues[i].closed;
  }

  lemma LaterKeepsCapture(s: State, t: State)
    requires Later(s, t) && CaptureControl(s) && t.capture == s.capture
    ensures CaptureControl(t)
  {
  }

  lemma InitControl(c: Config)
    requires c.Valid()
    ensures Control(Init(c))
  {
    hide Config.Capacity, Config.Frames;
  }

  // ---------- capture ----------

  /** Capture and stages change only themselves, signals and closed flags; this is what has to be checked. */
  lemma CaptureSteps(s: State, t: State)
    requires Control(s) && Later(s, t) && t.stages == s.stages && CaptureControl(t)
    requires forall k :: 1 <= k < 4 && t.queues[k].closed ==> s.queues[k].closed || t.signals.aborted
    requires t.queues[0].closed ==> s.queues[0].closed || t.signals.stop || t.capture.Exited?
    requires s.capture.Exited? ==> t.capture.Exited?
    requires t.signals.callbackPending ==> t.signals.stop
    requires t.signals.aborted ==>
      (t.signals.stop || t.capture == Capture.Aborting(2) || (s.signals.aborted && s.capture != Capture.Aborting(2)))
    ensures Control(t)
  {
    hide CaptureControl;
    forall i | 0 <= i < 4 ensures StageControl(t, i) {
      LaterKeepsStage(s, t, i);
    }
    forall k | 0 <= k < 4 ensures ClosedFor(t, k) {
      assert ClosedFor(s, k);
    }
  }

  lemma StageSteps(s: State, t: State, i: nat)
    requires Control(s) && Later(s, t) && i < 4 && t.stages == s.stages[i := t.stages[i]]
    requires t.capture == s.capture
    requires StageControl(t, i) && !s.stages[i].Exited?
    requires forall k :: 1 <= k < 4 && t.queues[k].closed ==>
      s.queues[k].closed || t.signals.aborted || (k == i + 1 && t.stages[i].Exited?)
    requires t.queues[0].closed ==> s.queues[0].closed || t.signals.stop
    requires t.signals.callbackPending ==> t.signals.stop
    requires t.signals.aborted ==>
      (t.signals.stop || t.stages[i] == Stage.Aborting(2) || (s.signals.aborted && s.stages[i] != Stage.Aborting(2)))
    ensures Control(t)
  {
    hide CaptureControl, StageControl;
    LaterKeepsCapture(s, t);
    forall j | 0 <= j < 4 ensures StageControl(t, j) {
      if j != i {
        LaterKeepsStage(s, t, j);
      }
    }
    forall k | 0 <= k < 4 ensures ClosedFor(t, k) {
      assert ClosedFor(s, k);
    }
  }

  ghost predicate SameClosed(s: State, t: State) {
    && Shaped(s) && Shaped(t)
    && t.queues[0].closed == s.queues[0].closed && t.queues[1].closed == s.queues[1].closed
    && t.queues[2].closed == s.queues[2].closed && t.queues[3].closed == s.queues[3].closed
  }

  /** A step of capture that neither signals nor closes. */
  lemma CaptureQuiet(s: State, t: State)
    requires Control(s) && t.stages == s.stages && t.signals == s.signals && SameClosed(s, t)
    requires !s.capture.Exited? && !s.capture.Aborting? && !t.capture.Exited?
    requires t.capture.Aborting? ==> t.capture.k == 0
    ensures Control(t)
  {
    hide StageControl, ClosedFor;
    assert ClosedFor(s, 0);
    CaptureSteps(s, t);
  }

  /** A step of stage i that neither signals nor closes. */
  lemma StageQuiet(s: State, t: State, i: nat)
    requires Control(s) && SameClosed(s, t) && t.signals == s.signals
    requires i < 4 && t.stages == s.stages[i := t.stages[i]] && t.capture == s.capture
    requires !s.stages[i].Exited? && !s.stages[i].Aborting? && !t.stages[i].Exited?
    requires t.stages[i].Aborting? ==> t.stages[i].k == 0
    requires t.stages[i].CloseOutput? ==> t.queues[i].closed
    requires t.stages[i].Handing? ==> i < SINK
    ensures Control(t)
  {
    hide CaptureControl, ClosedFor;
    StageSteps(s, t, i);
  }

  /** What one step of `abort` does to signals and closed flags. */
  lemma AbortAdvances(s: State, k: nat)
    requires Shaped(s) && AbortProgress(s, k)
    ensures var t := AbortStep(s, k);
      && Later(s, t) && t.stages == s.stages && t.capture == s.capture
      && t.signals.callbackPending == s.signals.callbackPending
      && (k < 6 ==> AbortProgress(t, k + 1))
      && (k == 6 ==> t.queues[0].closed && t.queues[1].closed && t.queues[2].closed && t.queues[3].closed)
      && t.signals.aborted == (s.signals.aborted || k == 1) && t.signals.stop == (s.signals.stop || k == 2)
      && t.queues[0].closed == (s.queues[0].closed || k == 3) && t.queues[1].closed == (s.queues[1].closed || k == 4)
      && t.queues[2].closed == (s.queues[2].closed || k == 5) && t.queues[3].closed == (s.queues[3].closed || k == 6)
      && (forall j :: 0 <= j < 4 ==> t.queues[j].items == s.queues[j].items)
      && t.free == s.free && t.tally == s.tally
  {
    if k == 0 {} else if k == 1 {} else if k == 2 {} else {}
  }

  lemma CaptureAborts(s: State, k: nat)
    requires Control(s) && s.capture == Capture.Aborting(k)
    ensures Control(AbortStep(s, k).(capture := if k < 6 then Capture.Aborting(k + 1) else CloseIngress))
  {
    hide StageControl, ClosedFor, AbortStep;
    AbortAdvances(s, k);
    var t := AbortStep(s, k).(capture := if k < 6 then Capture.Aborting(k + 1) else CloseIngress);
    assert ClosedFor(s, 0);
    CaptureSteps(s, t);
  }

  lemma StageAborts(s: State, i: nat, k: nat)
    requires Control(s) && i < 4 && s.stages[i] == Stage.Aborting(k) && k <= 6
    ensures Control(SetStage(AbortStep(s, k), i, if k < 6 then Stage.Aborting(k + 1) else CloseOutput))
  {
    hide CaptureControl, ClosedFor, AbortStep;
    assert StageControl(s, i);
    AbortAdvances(s, k);
    StageSteps(s, SetStage(AbortStep(s, k), i, if k < 6 then Stage.Aborting(k + 1) else CloseOutput), i);
  }

  lemma CaptureExits(s: State)
    requires Control(s) && s.capture == CloseIngress
    ensures Control(CloseQueue(s, 0).(capture := Capture.Exited))
  {
    hide StageControl, ClosedFor, CloseQueue;
    CloseOnlyCloses(s, 0);
    CaptureSteps(s, CloseQueue(s, 0).(capture := Capture.Exited));
  }

  lemma StageExits(s: State, i: nat)
    requires Control(s) && i < 4 && s.stages[i] == CloseOutput
    ensures Control(SetStage(if i < SINK then CloseQueue(s, i + 1) else s, i, Stage.Exited))
  {
    hide CaptureControl, ClosedFor, CloseQueue;
    assert StageControl(s, i);
    if i < SINK {
      CloseOnlyCloses(s, i + 1);
    }
    StageSteps(s, SetStage(if i < SINK then CloseQueue(s, i + 1) else s, i, Stage.Exited), i);
  }

  lemma CaptureKeepsControl(c: Config, s: State, o: Outcome)
    requires c.Valid() && Shaped(s) && Control(s) && CaptureEnabled(c, s, o)
    ensures Control(CaptureStep(c, s, o))
  {
    hide Config.Capacity, CanPush, Control, AbortStep, CloseQueue;
    var t := CaptureStep(c, s, o);
    match s.capture
    case Aborting(k) => CaptureAborts(s, k);
    case CloseIngress => CaptureExits(s);
    case Pushing(p) => CapturePushClosesNothing(c, s, p); CaptureQuiet(s, t);
    case Acquire => CaptureQuiet(s, t);
    case Reading(_) => if o.Returns? {} else if o.Ends? {} else {} CaptureQuiet(s, t);
    case CheckStop => CaptureQuiet(s, t);
    case CheckAborted => CaptureQuiet(s, t);
    case Dropped(_, _) => CaptureQuiet(s, t);
    case CountDrop(_) => CaptureQuiet(s, t);
  }

  lemma CapturePushClosesNothing(c: Config, s: State, p: Push)
    requires c.Valid() && Shaped(s)
    requires p.Releasing? || p.Returned? || CanPush(c.policy, c.Capacity(0), s.queues[0], p)
    ensures var t := CapturePush(c, s, p);
      && SameClosed(s, t) && t.stages == s.stages && t.signals == s.signals
      && !t.capture.Aborting? && !t.capture.Exited?
  {
    hide Config.Capacity;
    if p.Releasing? {} else if p.Returned? {} else {}
  }

  lemma StagePushClosesNothing(c: Config, s: State, i: nat, p: Push)
    requires c.Valid() && Shaped(s) && i < SINK
    requires p.Releasing? || p.Returned? || CanPush(c.PolicyOf(i + 1), c.Capacity(i + 1), s.queues[i + 1], p)
    ensures var t := StagePush(c, s, i, p);
      && SameClosed(s, t) && t.stages == s.stages[i := t.stages[i]] && t.capture == s.capture && t.signals == s.signals
      && (t.stages[i].Handing? || t.stages[i].CountDrop?)
  {
    hide Config.Capacity;
    if p.Releasing? {} else if p.Returned? {} else {}
  }

  lemma StageKeepsControl(c: Config, s: State, i: nat, o: Outcome)
    requires c.Valid() && Shaped(s) && Control(s) && i < 4 && StageEnabled(c, s, i)
    ensures Control(StageStep(c, s, i, o))
  {
    hide Config.Capacity, CanPush, Control, AbortStep, CloseQueue;
    var t := StageStep(c, s, i, o);
    match s.stages[i]
    case Aborting(k) => StageAborts(s, i, k);
    case CloseOutput => StageExits(s, i);
    case Handing(p) => StagePushClosesNothing(c, s, i, p); StageQuiet(s, t, i);
    case Pop => if |s.queues[i].items| > 0 {} else {} StageQuiet(s, t, i);
    case CheckAbort(_) => StageQuiet(s, t, i);
    case Body(_) => if o.Throws? {} else if i == SINK {} else {} StageQuiet(s, t, i);
    case CountDone(_) => StageQuiet(s, t, i);
    case Release(_, _) => StageQuiet(s, t, i);
    case CountDrop(_) => StageQuiet(s, t, i);
  }

  /** Every step keeps what is known about signals and closed hand-offs. */
  lemma StepKeepsControl(c: Config, s: State, e: Event)
    requires c.Valid() && Shaped(s) && Control(s) && Enabled(c, s, e)
    ensures Control(Step(c, s, e))
  {
    hide Config.Capacity, Control, CaptureStep, StageStep, CaptureEnabled, StageEnabled, CloseQueue;
    match e
    case CaptureMoves(o) => CaptureKeepsControl(c, s, o);
    case StageMoves(i, o) => StageKeepsControl(c, s, i, o);
    case RequestStop => RequestKeepsControl(s);
    case RunCallback => CallbackKeepsControl(s);
  }

  lemma RequestKeepsControl(s: State)
    requires Control(s)
    ensures Control(s.(signals := s.signals.(stop := true, callbackPending := true)))
  {
    hide StageControl, ClosedFor;
    CaptureSteps(s, s.(signals := s.signals.(stop := true, callbackPending := true)));
  }

  lemma CallbackKeepsControl(s: State)
    requires Control(s) && s.signals.callbackPending
    ensures Control(CloseQueue(s, 0).(signals := s.signals.(callbackPending := false)))
  {
    hide StageControl, ClosedFor, CloseQueue;
    CloseOnlyCloses(s, 0);
    CaptureSteps(s, CloseQueue(s, 0).(signals := s.signals.(callbackPending := false)));
  }

  // ---------- no deadlock ----------

  ghost predicate SomebodyCanMove(c: Config, s: State)
    requires c.Valid() && Shaped(s)
  {
    CaptureEnabled(c, s, Returns) || exists i :: 0 <= i < 4 && StageEnabled(c, s, i)
  }

  /** A stage that can not move has exited, or waits for input, or for room. */
  lemma WhyAStageWaits(c: Config, s: State, i: nat)
    requires c.Valid() && Shaped(s) && i < 4 && StageControl(s, i) && !StageEnabled(c, s, i)
    ensures s.stages[i].Exited?
      || (s.stages[i].Pop? && s.queues[i].items == [] && !s.queues[i].closed)
      || (i < SINK && !s.queues[i + 1].closed && |s.queues[i + 1].items| >= c.Capacity(i + 1))
    ensures !s.stages[i].Aborting?
  {
    hide Config.Capacity;
  }

  /** If stage i has not exited, yet neither it nor anybody in front of it can move, then it waits for input. */
  lemma {:induction false} WaitsForInput(c: Config, s: State, i: nat)
    requires c.Valid() && Control(s) && i < 4 && !s.stages[i].Exited?
    requires forall j :: 0 <= j < 4 ==> !StageEnabled(c, s, j)
    ensures exists k :: i <= k < 4 && s.stages[k].Pop? && s.queues[k].items == [] && !s.queues[k].closed
    decreases 4 - i
  {
    hide Config.Capacity, CaptureControl, ClosedFor;
    assert StageControl(s, i);
    WhyAStageWaits(c, s, i);
    if !(s.stages[i].Pop? && s.queues[i].items == [] && !s.queues[i].closed) {
      assert StageControl(s, i + 1);
      WaitsForInput(c, s, i + 1);
    }
  }

  /** If stage i waits for input, then every stage behind it does, and its own hand-off is empty and open. */
  lemma {:induction false} EverybodyBehindWaits(c: Config, s: State, i: nat)
    requires c.Valid() && Control(s) && i < 4
    requires s.stages[i].Pop? && s.queues[i].items == [] && !s.queues[i].closed
    requires forall j :: 0 <= j < 4 ==> !StageEnabled(c, s, j)
    ensures forall j :: 0 <= j <= i ==> s.stages[j].Pop? && s.queues[j].items == [] && !s.queues[j].closed
    decreases i
  {
    hide Config.Capacity, CaptureControl, ClosedFor;
    if i > 0 {
      assert StageControl(s, i - 1);
      WhyAStageWaits(c, s, i - 1);
      CapacityPositive(c);
      EverybodyBehindWaits(c, s, i - 1);
    }
  }

  /** A thread that is about to request the stop can do so. */
  lemma AbortCanGoOn(c: Config, s: State)
    requires c.Valid() && Shaped(s) && StopComing(s)
    ensures SomebodyCanMove(c, s)
  {
    hide Config.Capacity;
    if s.capture == Capture.Aborting(2) {
      assert CaptureEnabled(c, s, Returns);
    } else {
      var i :| 0 <= i < 4 && s.stages[i] == Stage.Aborting(2);
      assert StageEnabled(c, s, i);
    }
  }

  /** If nobody can move, nobody is on the way to request the stop, so an abort has requested it. */
  lemma StuckMeansNoAbort(c: Config, s: State)
    requires c.Valid() && Control(s) && !SomebodyCanMove(c, s) && !s.signals.stop
    ensures !s.signals.aborted
  {
    hide Config.Capacity, StageControl, ClosedFor, CaptureControl, SomebodyCanMove;
    if s.signals.aborted {
      AbortCanGoOn(c, s);
    }
  }

  /** Without an abort the stages exit front to back: if a stage has exited, so have all behind it. */
  lemma {:induction false} ExitsRipple(s: State, i: nat)
    requires Control(s) && i < 4 && !s.signals.aborted && s.stages[i].Exited?
    ensures forall j :: 0 <= j <= i ==> s.stages[j].Exited?
    ensures s.queues[0].closed
    decreases i
  {
    hide CaptureControl;
    assert StageControl(s, i);
    assert ClosedFor(s, i);
    if i > 0 {
      ExitsRipple(s, i - 1);
    }
  }

  /** A capture thread that can not move waits for a frame, or for room in an open ingress, or has exited. */
  lemma WhyCaptureWaits(c: Config, s: State)
    requires c.Valid() && Shaped(s) && CaptureControl(s) && !CaptureEnabled(c, s, Returns)
    ensures s.capture.Exited?
      || (s.capture.Acquire? && s.free == [] && !s.signals.stop)
      || (!s.queues[0].closed && |s.queues[0].items| >= c.Capacity(0))
  {
    hide Config.Capacity;
  }

  /** If every thread waits at an empty end, every frame is in the pool. */
  lemma AllWaitingMeansAllFree(c: Config, s: State)
    requires c.Valid() && FramesInv(c, s) && s.capture.Acquire?
    requires forall j :: 0 <= j < 4 ==> s.stages[j].Pop? && s.queues[j].items == []
    ensures |s.free| == c.Frames()
  {
    hide Config.Capacity, Config.Frames, Line, InOrder;
    assert Accounted(c, s, All);
    InLineAll(Line(s));
    LineBySegments(s);
  }

  /**
    The pipeline never deadlocks: as long as some thread has not exited, some thread can move,
    whatever the policy, the capacities and the number of frames.
   */
  lemma NoDeadlock(c: Config, s: State)
    requires c.Valid() && FramesInv(c, s) && Control(s)
    requires !AllExited(s)
    ensures SomebodyCanMove(c, s)
  {
    hide Config.Capacity, Config.Frames, FramesInv, StageControl, StageEnabled, CaptureEnabled, ClosedFor;
    if !SomebodyCanMove(c, s) {
      WhyCaptureWaits(c, s);
      CapacityPositive(c);
      if s.stages[SINK].Exited? {
        SinkExitedIsStuck(c, s);
      } else {
        WaitsForInput(c, s, SINK);
        EverybodyBehindWaits(c, s, SINK);
        AllWaitingMeansAllFree(c, s);
        FramesPositive(c);
      }
    }
  }

  /** After the sink has exited the others can still move until they have exited too. */
  lemma SinkExitedIsStuck(c: Config, s: State)
    requires c.Valid() && Control(s) && s.stages[SINK].Exited? && !AllExited(s)
    ensures SomebodyCanMove(c, s)
  {
    hide Config.Capacity, SomebodyCanMove;
    if s.signals.stop {
      StoppedIsStuck(c, s);
    } else if !SomebodyCanMove(c, s) {
      assert ClosedFor(s, 0);
      StuckMeansNoAbort(c, s);
      ExitsRipple(s, SINK);
    }
  }

  /** After a stop request the pipeline empties itself: someone can move until all have exited. */
  lemma StoppedIsStuck(c: Config, s: State)
    requires c.Valid() && Control(s) && s.signals.stop && !AllExited(s)
    ensures SomebodyCanMove(c, s)
  {
    hide Config.Capacity, StageEnabled, CaptureEnabled, ClosedFor;
    assert StageControl(s, 0);
    if !SomebodyCanMove(c, s) {
      WhyCaptureWaits(c, s);
      CapacityPositive(c);
      if i :| 0 <= i < 4 && !s.stages[i].Exited? {
        WaitsForInput(c, s, i);
        var k :| i <= k < 4 && s.stages[k].Pop? && s.queues[k].items == [] && !s.queues[k].closed;
        EverybodyBehindWaits(c, s, k);
      }
    }
  }

  /** In every run the signals and closed hand-offs stay as described. */
  lemma {:induction false} RunKeepsControl(c: Config, s: State, es: seq<Event>)
    requires c.Valid() && Control(s) && Follows(c, s, es)
    ensures Control(Run(c, s, es))
    decreases |es|
  {
    hide Control, Step, Enabled, Config.Capacity;
    if es != [] {
      StepKeepsControl(c, s, es[0]);
      RunKeepsControl(c, Step(c, s, es[0]), es[1..]);
    }
  }

  /** No run deadlocks: in every reachable state in which a thread has not exited, a thread can move. */
  lemma NoRunDeadlocks(c: Config, es: seq<Event>)
    requires c.Valid() && Follows(c, Init(c), es)
    ensures Shaped(Run(c, Init(c), es))
    ensures AllExited(Run(c, Init(c), es)) || SomebodyCanMove(c, Run(c, Init(c), es))
  {
    hide FramesInv, Step, Enabled, Config.Capacity, Config.Frames, CaptureControl, StageControl,
      SomebodyCanMove;
    InitFrames(c);
    InitControl(c);
    RunKeepsFrames(c, Init(c), es);
    RunKeepsControl(c, Init(c), es);
    if !AllExited(Run(c, Init(c), es)) {
      NoDeadlock(c, Run(c, Init(c), es));
    }
  }
}
