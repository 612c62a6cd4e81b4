/**
  The books of a failure-free run: every captured frame is completed, dropped, or (one at most, and
  only if a stop request overtook a push) left in the ingress, and the newest frame gets through.
 */
module PipelineAccounting {
  import opened HandOff
  import opened Pipeline
  import opened PipelineFrames
  import opened PipelineShutdown

  // ---------- failures ----------

  /** The thread has caught a failure and is about to report it, or is in the middle of `abort`. */
  ghost predicate CaptureFails(g: Capture) {
    g.Aborting? || (g.Dropped? && g.thrown)
  }

  ghost predicate StageFails(g: Stage) {
    g.Aborting? || (g.Release? && g.thrown)
  }

  /** The thread still has to store its failure. */
  ghost predicate CaptureReports(g: Capture) {
    g == Capture.Aborting(0) || (g.Dropped? && g.thrown)
  }

  ghost predicate StageReports(g: Stage) {
    g == Stage.Aborting(0) || (g.Release? && g.thrown)
  }

  /** Nothing is aborted unless something failed, and a failure is stored or about to be. */
  ghost predicate FailureControl(s: State)
    requires Shaped(s)
  {
    && (s.signals.aborted || s.signals.error || CaptureFails(s.capture) ==> s.history.failed)
    && (forall i :: 0 <= i < 4 && StageFails(s.stages[i]) ==> s.history.failed)
    && (s.history.failed ==>
          (s.signals.error || CaptureReports(s.capture) || exists i :: 0 <= i < 4 && StageReports(s.stages[i])))
  }

  lemma CaptureKeepsFailures(c: Config, s: State, o: Outcome)
    requires c.Valid() && Shaped(s) && CaptureEnabled(c, s, o) && FailureControl(s)
    ensures Shaped(CaptureStep(c, s, o)) && FailureControl(CaptureStep(c, s, o))
  {
    hide Config.Capacity, CanPush, AbortStep, PushStep, StageFails, StageReports;
    match s.capture
    case Pushing(p) => if p.Releasing? {} else if p.Returned? {} else {}
    case Reading(_) => if o.Returns? {} else if o.Ends? {} else {}
    case Aborting(k) => AbortOnlySignals(s, k);
    case Acquire =>
    case CheckStop =>
    case CheckAborted =>
    case Dropped(_, _) =>
    case CountDrop(_) =>
    case CloseIngress =>
  }

  /** Stage i moves: it may start to fail, and must not stop reporting before it has reported. */
  lemma OneStageFails(s: State, t: State, i: nat)
    requires Shaped(s) && FailureControl(s) && Shaped(t) && i < 4
    requires t.stages == s.stages[i := t.stages[i]] && t.capture == s.capture
    requires (s.history.failed ==> t.history.failed) && (s.signals.error ==> t.signals.error)
    requires t.history.failed ==> (s.history.failed || StageReports(t.stages[i]))
    requires (t.signals.aborted ==> s.signals.aborted || t.history.failed)
    requires (t.signals.error ==> s.signals.error || t.history.failed)
    requires StageFails(t.stages[i]) ==> t.history.failed
    requires StageReports(s.stages[i]) ==> (t.signals.error || StageReports(t.stages[i]))
    ensures FailureControl(t)
  {
    hide StageFails, StageReports, CaptureFails, CaptureReports;
    if t.history.failed && !t.signals.error && !StageReports(t.stages[i]) && !CaptureReports(s.capture) {
      var j :| 0 <= j < 4 && StageReports(s.stages[j]);
      assert t.stages[j] == s.stages[j];
    }
  }

  lemma StageKeepsFailures(c: Config, s: State, i: nat, o: Outcome)
    requires c.Valid() && Shaped(s) && i < 4 && StageEnabled(c, s, i) && FailureControl(s)
    ensures Shaped(StageStep(c, s, i, o)) && FailureControl(StageStep(c, s, i, o))
  {
    hide Config.Capacity, CanPush, AbortStep, PushStep, CaptureFails, CaptureReports, CloseQueue;
    OneStageMoves(c, s, i, o);
    match s.stages[i] {
      case Pop => if |s.queues[i].items| > 0 {} else {}
      case Handing(p) => if p.Releasing? {} else if p.Returned? {} else {}
      case Body(_) => if o.Throws? {} else if i == SINK {} else {}
      case Aborting(k) => assert s.history.failed; AbortOnlySignals(s, k);
      case CheckAbort(_) =>
      case CountDone(_) =>
      case Release(_, _) =>
      case CountDrop(_) =>
      case CloseOutput => if i < SINK { CloseOnlyCloses(s, i + 1); }
    }
    hide FailureControl, StageStep, StageEnabled;
    OneStageFails(s, StageStep(c, s, i, o), i);
  }

  lemma StepKeepsFailures(c: Config, s: State, e: Event)
    requires c.Valid() && Shaped(s) && Enabled(c, s, e) && FailureControl(s)
    ensures Shaped(Step(c, s, e)) && FailureControl(Step(c, s, e))
  {
    hide Config.Capacity, CaptureStep, StageStep, CaptureEnabled, StageEnabled, CloseQueue;
    match e
    case CaptureMoves(o) => CaptureKeepsFailures(c, s, o);
    case StageMoves(i, o) => StageKeepsFailures(c, s, i, o);
    case RequestStop =>
    case RunCallback => CloseOnlyCloses(s, 0);
  }

  // ---------- the ledger ----------

  /** The push has decided, but its caller has not counted the frame as captured yet. */
  function Admits(p: Push): nat {
    if (p.Releasing? || p.Returned?) && !p.result.Closed? then 1 else 0
  }

  /** The push has dropped a frame that its caller has not counted yet. */
  function Drops(p: Push): nat {
    if (p.Releasing? || p.Returned?) && IsDrop(p.result) then 1 else 0
  }

  function PendingDrop(g: Stage): nat {
    match g
    case Handing(p) => Drops(p)
    case CountDrop(r) => if IsDrop(r) then 1 else 0
    case _ => 0
  }

  /**
    What capture contributes: frames admitted but not counted yet, less drops not counted yet, and
    the frame in its hand.
   */
  function CaptureShare(g: Capture): int {
    match g
    case Pushing(p) => Admits(p) - Drops(p) + |InHand(p)|
    case CountDrop(r) => if IsDrop(r) then -1 else 0
    case _ => 0
  }

  /** Frames captured and neither delivered nor dropped, by the counters. */
  ghost function Ledger(s: State): int
    requires Shaped(s)
  {
    s.tally.captured + CaptureShare(s.capture) - |s.history.delivered| - s.tally.dropped
    - PendingDrop(s.stages[0]) - PendingDrop(s.stages[1]) - PendingDrop(s.stages[2]) - PendingDrop(s.stages[3])
  }

  /** How an effect changes the number of frames in the line. */
  function Gain(x: Effect): int {
    match x
    case Keeps => 0
    case Enters(_) => 1
    case Loses(_) => -1
    case Sinks(_) => -1
  }

  lemma GainIsGrowth(s: seq<Frame>, x: Effect, t: seq<Frame>)
    requires Affects(s, x, t)
    ensures |t| == |s| + Gain(x)
  {
  }

  lemma PushLedger(policy: Policy, capacity: nat, q: Queue, p: Push)
    requires CanPush(policy, capacity, q, p)
    ensures var (_, next) := PushStep(policy, capacity, q, p); var x := Gain(EffectOfPush(policy, capacity, q, p));
      && Admits(next) - Drops(next) + |InHand(next)| == |InHand(p)| + x
      && Admits(p) == Drops(p) == 0
      && (!(p.Checking? && q.closed) ==> x + Drops(next) == 0)
  {
  }

  lemma CapturePushLedger(c: Config, s: State, p: Push)
    requires c.Valid() && Shaped(s) && s.capture == Pushing(p)
    requires p.Releasing? || p.Returned? || CanPush(c.policy, c.Capacity(0), s.queues[0], p)
    ensures Shaped(CapturePush(c, s, p))
    ensures Ledger(CapturePush(c, s, p)) == Ledger(s) + Gain(EffectOfPush(c.policy, c.Capacity(0), s.queues[0], p))
  {
    hide Config.Capacity, EffectOfPush, CanPush, PushStep, PendingDrop;
    if p.Releasing? {
      NoPushNoGain(c.policy, c.Capacity(0), s.queues[0], p);
    } else if p.Returned? {
      NoPushNoGain(c.policy, c.Capacity(0), s.queues[0], p);
    } else {
      PushLedger(c.policy, c.Capacity(0), s.queues[0], p);
    }
  }

  lemma NoPushNoGain(policy: Policy, capacity: nat, q: Queue, p: Push)
    requires p.Releasing? || p.Returned?
    ensures Gain(EffectOfPush(policy, capacity, q, p)) == 0
  {
  }

  lemma CaptureLedger(c: Config, s: State, o: Outcome)
    requires c.Valid() && Shaped(s) && CaptureEnabled(c, s, o)
    ensures Shaped(CaptureStep(c, s, o))
    ensures Ledger(CaptureStep(c, s, o)) == Ledger(s) + Gain(EffectOf(c, s, CaptureMoves(o)))
  {
    hide Config.Capacity, EffectOfPush, CanPush, PushStep, PendingDrop, AbortStep, CloseQueue, CapturePush;
    match s.capture
    case Pushing(p) => CapturePushLedger(c, s, p);
    case Reading(_) => if o.Returns? {} else if o.Ends? {} else {}
    case Aborting(k) => AbortOnlySignals(s, k);
    case CloseIngress => CloseOnlyCloses(s, 0);
    case Acquire =>
    case CheckStop =>
    case CheckAborted =>
    case Dropped(_, _) =>
    case CountDrop(_) =>
  }

  /** In a failure-free run nobody but stage i closes the hand-off it pushes to. */
  lemma OutputStaysOpen(s: State, i: nat)
    requires Control(s) && FailureControl(s) && !s.history.failed && i < SINK && !s.stages[i].Exited?
    ensures !s.queues[i + 1].closed
  {
    hide CaptureControl, StageControl;
    assert ClosedFor(s, i + 1);
  }

  lemma SetStageLedger(s: State, i: nat, g: Stage)
    requires Shaped(s) && i < 4
    ensures Shaped(SetStage(s, i, g))
    ensures Ledger(SetStage(s, i, g)) == Ledger(s) + PendingDrop(s.stages[i]) - PendingDrop(g)
  {
    hide PendingDrop, CaptureShare;
    if i == 0 {} else if i == 1 {} else if i == 2 {} else {}
  }

  lemma SameLedger(s: State, t: State)
    requires Shaped(s) && Shaped(t) && t.stages == s.stages && t.capture == s.capture
    requires t.tally == s.tally && t.history.delivered == s.history.delivered
    ensures Ledger(t) == Ledger(s)
  {
    hide PendingDrop, CaptureShare;
  }

  lemma StagePushLedger(c: Config, s: State, i: nat, p: Push)
    requires c.Valid() && Shaped(s) && i < SINK && s.stages[i] == Handing(p) && !s.queues[i + 1].closed
    requires p.Releasing? || p.Returned? || CanPush(c.PolicyOf(i + 1), c.Capacity(i + 1), s.queues[i + 1], p)
    ensures Shaped(StagePush(c, s, i, p))
    ensures Ledger(StagePush(c, s, i, p)) ==
      Ledger(s) + Gain(EffectOfPush(c.PolicyOf(i + 1), c.Capacity(i + 1), s.queues[i + 1], p))
  {
    hide Config.Capacity, EffectOfPush, CanPush, PushStep, Ledger;
    var t := StagePush(c, s, i, p);
    if p.Releasing? || p.Returned? {
      NoPushNoGain(c.PolicyOf(i + 1), c.Capacity(i + 1), s.queues[i + 1], p);
    } else {
      PushLedger(c.PolicyOf(i + 1), c.Capacity(i + 1), s.queues[i + 1], p);
    }
    SetStageLedger(s, i, t.stages[i]);
    SameLedger(SetStage(s, i, t.stages[i]), t);
  }

  /** Steps of a stage that neither push, deliver nor count. */
  lemma StageQuietLedger(s: State, t: State, i: nat)
    requires Shaped(s) && i < 4 && Shaped(t) && t.stages == s.stages[i := t.stages[i]] && t.capture == s.capture
    requires t.tally.captured == s.tally.captured && t.tally.dropped == s.tally.dropped
    requires t.history.delivered == s.history.delivered
    requires PendingDrop(t.stages[i]) == PendingDrop(s.stages[i]) == 0
    ensures Ledger(t) == Ledger(s)
  {
    hide PendingDrop, CaptureShare;
    if i == 0 {} else if i == 1 {} else if i == 2 {} else {}
  }

  lemma StageBodyLedger(s: State, i: nat, f: Frame, o: Outcome)
    requires Shaped(s) && i < 4 && s.stages[i] == Body(f) && !o.Throws?
    ensures var t := StageBody(s, i, f, o);
      Shaped(t) && Ledger(t) == Ledger(s) - if i == SINK then 1 else 0
  {
    hide CaptureShare;
    if i == SINK {
    } else {
      StageQuietLedger(s, StageBody(s, i, f, o), i);
    }
  }

  lemma PushKeepsHistory(c: Config, s: State, i: nat, p: Push)
    requires c.Valid() && Shaped(s) && i < SINK
    requires p.Releasing? || p.Returned? || CanPush(c.PolicyOf(i + 1), c.Capacity(i + 1), s.queues[i + 1], p)
    ensures StagePush(c, s, i, p).history == s.history
  {
    hide Config.Capacity, CanPush, PushStep;
    if p.Releasing? {} else if p.Returned? {} else {}
  }

  lemma CountDropLedger(s: State, i: nat, r: Result)
    requires Shaped(s) && i < 4 && s.stages[i] == Stage.CountDrop(r)
    ensures var t := SetStage(s.(tally := CountIf(s.tally, IsDrop(r))), i, Pop);
      Shaped(t) && Ledger(t) == Ledger(s)
  {
    hide CaptureShare;
    if i == 0 {} else if i == 1 {} else if i == 2 {} else {}
  }

  lemma StageLedger(c: Config, s: State, i: nat, o: Outcome)
    requires c.Valid() && Control(s) && Shaped(s) && FailureControl(s) && i < 4 && StageEnabled(c, s, i)
    requires !StageStep(c, s, i, o).history.failed
    ensures Shaped(StageStep(c, s, i, o))
    ensures Ledger(StageStep(c, s, i, o)) == Ledger(s) + Gain(EffectOf(c, s, StageMoves(i, o)))
  {
    hide Config.Capacity, EffectOfPush, CanPush, PushStep, AbortStep, CloseQueue, StagePush, Control,
      CaptureShare, Ledger;
    var t := StageStep(c, s, i, o);
    match s.stages[i]
    case Handing(p) => PushKeepsHistory(c, s, i, p); OutputStaysOpen(s, i); StagePushLedger(c, s, i, p);
    case Body(f) => if o.Throws? {} else { StageBodyLedger(s, i, f, o); }
    case CountDrop(r) => CountDropLedger(s, i, r);
    case Pop => StageQuietLedger(s, t, i);
    case Aborting(k) => AbortOnlySignals(s, k); StageQuietLedger(s, t, i);
    case CheckAbort(_) => StageQuietLedger(s, t, i);
    case CountDone(_) => StageQuietLedger(s, t, i);
    case Release(_, _) => StageQuietLedger(s, t, i);
    case CloseOutput =>
      if i < SINK {
        CloseOnlyCloses(s, i + 1);
      }
      StageQuietLedger(s, t, i);
  }

  // ---------- what is left in the hand-offs ----------

  predicate PastLoop(g: Stage) {
    g.CloseOutput? || g.Exited?
  }

  /**
    A stage leaves its loop only when its input is closed and empty, and only the ingress can get
    another frame after that: one, and only from a push that a stop request has overtaken.
   */
  ghost predicate Drained(s: State)
    requires Shaped(s)
  {
    && (s.history.raced ==> s.signals.stop)
    && (s.queues[0].closed && !s.history.raced ==> !CommittedCapture(s.capture))
    && (PastLoop(s.stages[0]) ==>
          |s.queues[0].items| + (if CommittedCapture(s.capture) then 1 else 0) <= 1
          && (s.queues[0].items == [] || s.history.raced))
    && forall i :: 1 <= i < 4 && PastLoop(s.stages[i]) ==> s.queues[i].items == []
  }

  lemma PastLoopClosed(s: State, i: nat)
    requires Control(s) && i < 4 && PastLoop(s.stages[i])
    ensures s.queues[i].closed
  {
    hide CaptureControl, ClosedFor;
    assert StageControl(s, i);
  }

  /** Capture changes only the ingress, and a push past its check inserts at most its own frame. */
  lemma CaptureDrains(s: State, t: State)
    requires Shaped(s) && Control(s) && Drained(s) && Shaped(t) && t.stages == s.stages
    requires forall k :: 1 <= k < 4 ==> t.queues[k].items == s.queues[k].items
    requires t.history.raced == s.history.raced && t.signals.stop == s.signals.stop
    requires CommittedCapture(t.capture) && !CommittedCapture(s.capture) ==> !s.queues[0].closed
    requires t.queues[0].closed ==> s.queues[0].closed || !CommittedCapture(t.capture)
    requires t.queues[0].items == s.queues[0].items
      || (CommittedCapture(s.capture) && !CommittedCapture(t.capture) && |t.queues[0].items| <= |s.queues[0].items| + 1)
    ensures Drained(t)
  {
    hide Control, CommittedCapture;
    if PastLoop(s.stages[0]) {
      PastLoopClosed(s, 0);
    }
  }

  /** A stage changes only its own hand-offs; what it pushes to is open. */
  lemma StageDrains(s: State, t: State, i: nat)
    requires Shaped(s) && Control(s) && Drained(s) && Shaped(t) && i < 4
    requires t.stages == s.stages[i := t.stages[i]] && t.capture == s.capture
    requires forall k :: 0 <= k < 4 && k != i && k != i + 1 ==> t.queues[k].items == s.queues[k].items
    requires t.history.raced == s.history.raced && t.signals.stop == s.signals.stop
    requires t.queues[0].closed == s.queues[0].closed
    requires i < SINK ==> (t.queues[i + 1].items == s.queues[i + 1].items || !s.queues[i + 1].closed)
    requires PastLoop(t.stages[i]) ==>
      (t.queues[i].items == s.queues[i].items && (PastLoop(s.stages[i]) || (s.queues[i].items == [])))
    ensures Drained(t)
  {
    hide Control, CommittedCapture, PastLoop;
    if i < SINK && PastLoop(s.stages[i + 1]) {
      PastLoopClosed(s, i + 1);
    }
  }

  lemma PushCommits(policy: Policy, capacity: nat, q: Queue, p: Push)
    requires CanPush(policy, capacity, q, p)
    ensures var (q', p') := PushStep(policy, capacity, q, p);
      && q'.closed == q.closed
      && (Committed(p') && !Committed(p) ==> !q.closed)
      && (q'.items == q.items || (Committed(p) && !Committed(p') && |q'.items| <= |q.items| + 1))
  {
  }

  lemma CapturePushDrains(c: Config, s: State, p: Push)
    requires c.Valid() && Control(s) && Drained(s) && s.capture == Pushing(p)
    requires p.Releasing? || p.Returned? || CanPush(c.policy, c.Capacity(0), s.queues[0], p)
    ensures Shaped(CapturePush(c, s, p)) && Drained(CapturePush(c, s, p))
  {
    hide Config.Capacity, CanPush, PushStep, CaptureControl, StageControl, ClosedFor, Drained;
    if p.Releasing? {
    } else if p.Returned? {
    } else {
      PushCommits(c.policy, c.Capacity(0), s.queues[0], p);
    }
    CaptureDrains(s, CapturePush(c, s, p));
  }

  lemma CloseIngressDrains(s: State)
    requires Control(s) && Drained(s) && s.capture == CloseIngress
    ensures var t := CloseQueue(s, 0).(capture := Capture.Exited); Shaped(t) && Drained(t)
  {
    hide CaptureControl, StageControl, ClosedFor, Drained;
    CaptureDrains(s, CloseQueue(s, 0).(capture := Capture.Exited));
  }

  lemma CaptureKeepsDrained(c: Config, s: State, o: Outcome)
    requires c.Valid() && Control(s) && Shaped(s) && FailureControl(s) && CaptureEnabled(c, s, o) && Drained(s)
    requires !s.history.failed
    ensures Shaped(CaptureStep(c, s, o)) && Drained(CaptureStep(c, s, o))
  {
    hide Config.Capacity, CanPush, PushStep, AbortStep, CloseQueue, CapturePush, Control, Drained;
    var t := CaptureStep(c, s, o);
    match s.capture
    case Pushing(p) => CapturePushDrains(c, s, p);
    case CloseIngress => CloseIngressDrains(s);
    case Reading(_) => if o.Returns? {} else if o.Ends? {} else {} CaptureDrains(s, t);
    case Acquire => CaptureDrains(s, t);
    case CheckStop => CaptureDrains(s, t);
    case CheckAborted => CaptureDrains(s, t);
    case Dropped(_, _) => CaptureDrains(s, t);
    case CountDrop(_) => CaptureDrains(s, t);
  }

  lemma StagePushDrains(c: Config, s: State, i: nat, p: Push)
    requires c.Valid() && Control(s) && Drained(s) && i < SINK && s.stages[i] == Handing(p)
    requires !s.queues[i + 1].closed
    requires p.Releasing? || p.Returned? || CanPush(c.PolicyOf(i + 1), c.Capacity(i + 1), s.queues[i + 1], p)
    ensures Shaped(StagePush(c, s, i, p)) && Drained(StagePush(c, s, i, p))
  {
    hide Config.Capacity, CanPush, PushStep, CaptureControl, StageControl, ClosedFor, Drained;
    if p.Releasing? {} else if p.Returned? {} else {}
    StageDrains(s, StagePush(c, s, i, p), i);
  }

  lemma StagePopDrains(s: State, i: nat)
    requires Control(s) && Drained(s) && i < 4 && s.stages[i].Pop?
    ensures Shaped(StagePop(s, i)) && Drained(StagePop(s, i))
  {
    hide CaptureControl, StageControl, ClosedFor, Drained;
    StageDrains(s, StagePop(s, i), i);
  }

  lemma CloseOutputDrains(s: State, i: nat)
    requires Control(s) && Drained(s) && i < 4 && s.stages[i] == CloseOutput
    ensures var t := SetStage(if i < SINK then CloseQueue(s, i + 1) else s, i, Stage.Exited); Shaped(t) && Drained(t)
  {
    hide CaptureControl, StageControl, ClosedFor, Drained;
    StageDrains(s, SetStage(if i < SINK then CloseQueue(s, i + 1) else s, i, Stage.Exited), i);
  }

  lemma StageKeepsDrained(c: Config, s: State, i: nat, o: Outcome)
    requires c.Valid() && Control(s) && Shaped(s) && FailureControl(s) && i < 4
    requires StageEnabled(c, s, i) && Drained(s)
    requires !s.history.failed
    ensures Shaped(StageStep(c, s, i, o)) && Drained(StageStep(c, s, i, o))
  {
    hide Config.Capacity, CanPush, PushStep, AbortStep, CloseQueue, StagePush, StagePop, Control, Drained;
    var t := StageStep(c, s, i, o);
    match s.stages[i]
    case Handing(p) => OutputStaysOpen(s, i); StagePushDrains(c, s, i, p);
    case Pop => StagePopDrains(s, i);
    case CloseOutput => CloseOutputDrains(s, i);
    case Body(f) => if o.Throws? {} else if i == SINK {} else {} StageDrains(s, t, i);
    case CountDrop(r) => StageDrains(s, t, i);
    case CheckAbort(_) => StageDrains(s, t, i);
    case CountDone(_) => StageDrains(s, t, i);
    case Release(_, _) => StageDrains(s, t, i);
  }

  lemma CallbackDrains(s: State)
    requires Control(s) && Drained(s) && s.signals.callbackPending
    ensures var t := CloseQueue(s, 0).(signals := s.signals.(callbackPending := false)); Shaped(t) && Drained(t)
  {
    hide CaptureControl, StageControl, ClosedFor, CommittedCapture, PastLoop;
  }

  /** In a failure-free run every step leaves at most one frame behind, and that only in a race. */
  lemma StepKeepsDrained(c: Config, s: State, e: Event)
    requires c.Valid() && Control(s) && Shaped(s) && FailureControl(s) && Enabled(c, s, e) && Drained(s)
    requires !s.history.failed
    ensures Shaped(Step(c, s, e)) && Drained(Step(c, s, e))
  {
    hide Config.Capacity, CaptureStep, StageStep, CaptureEnabled, StageEnabled, CloseQueue, Control,
      FailureControl, CommittedCapture;
    match e
    case CaptureMoves(o) => CaptureKeepsDrained(c, s, o);
    case StageMoves(i, o) => StageKeepsDrained(c, s, i, o);
    case RequestStop =>
    case RunCallback => CallbackDrains(s);
  }

  // ---------- the books ----------

  /** Only the sink delivers, and it counts each frame once, right after delivering it. */
  ghost predicate Completion(s: State)
    requires Shaped(s)
  {
    && (forall i :: 0 <= i < SINK ==> !s.stages[i].CountDone?)
    && s.tally.completed + (if s.stages[SINK].CountDone? then 1 else 0) == |s.history.delivered|
  }

  lemma CaptureKeepsCompletion(c: Config, s: State, o: Outcome)
    requires c.Valid() && Shaped(s) && CaptureEnabled(c, s, o)
    ensures var t := CaptureStep(c, s, o);
      && Shaped(t) && t.stages == s.stages && t.tally.completed == s.tally.completed
         && t.history.delivered == s.history.delivered
      && (s.history.failed ==> t.history.failed)
  {
    hide Config.Capacity, CanPush, PushStep, AbortStep, CloseQueue;
    match s.capture
    case Pushing(p) => if p.Releasing? {} else if p.Returned? {} else {}
    case Reading(_) => if o.Returns? {} else if o.Ends? {} else {}
    case Aborting(k) => AbortOnlySignals(s, k);
    case CloseIngress => CloseOnlyCloses(s, 0);
    case Acquire =>
    case CheckStop =>
    case CheckAborted =>
    case Dropped(_, _) =>
    case CountDrop(_) =>
  }

  lemma StageKeepsCompletion(c: Config, s: State, i: nat, o: Outcome)
    requires c.Valid() && Shaped(s) && i < 4 && StageEnabled(c, s, i) && Completion(s)
    ensures var t := StageStep(c, s, i, o); Shaped(t) && Completion(t) && (s.history.failed ==> t.history.failed)
  {
    hide Config.Capacity, CanPush, PushStep, AbortStep, CloseQueue;
    match s.stages[i]
    case Pop => if |s.queues[i].items| > 0 {} else {}
    case Handing(p) => if p.Releasing? {} else if p.Returned? {} else {}
    case Body(_) => if o.Throws? {} else if i == SINK {} else {}
    case Aborting(k) => AbortOnlySignals(s, k);
    case CloseOutput => if i < SINK { CloseOnlyCloses(s, i + 1); }
    case CheckAbort(_) =>
    case CountDone(_) =>
    case Release(_, _) =>
    case CountDrop(_) =>
  }

  lemma FailureStays(c: Config, s: State, e: Event)
    requires c.Valid() && Shaped(s) && Enabled(c, s, e) && Completion(s) && s.history.failed
    ensures Step(c, s, e).history.failed
  {
    hide Config.Capacity, CaptureStep, StageStep, CaptureEnabled, StageEnabled, Completion;
    match e
    case CaptureMoves(o) => CaptureKeepsCompletion(c, s, o);
    case StageMoves(i, o) => StageKeepsCompletion(c, s, i, o);
    case RequestStop =>
    case RunCallback =>
  }

  /** While nothing has failed, the counters agree with where the frames are. */
  ghost predicate Books(s: State)
    requires Shaped(s)
  {
    Completion(s) && (!s.history.failed ==> Ledger(s) == |Line(s)| && Drained(s))
  }

  ghost predicate Sound(c: Config, s: State)
    requires c.Valid()
  {
    FramesInv(c, s) && Control(s) && FailureControl(s) && Books(s)
  }

  lemma StepKeepsBooks(c: Config, s: State, e: Event)
    requires c.Valid() && WithinCapacity(c, s) && Control(s) && Shaped(s) && FailureControl(s)
    requires Books(s) && Enabled(c, s, e)
    ensures Shaped(Step(c, s, e)) && Books(Step(c, s, e))
  {
    hide Config.Capacity, Control, FailureControl, WithinCapacity, Drained, Ledger, Line, CaptureStep,
      StageStep, CaptureEnabled, StageEnabled, Affects, CloseQueue;
    var t := Step(c, s, e);
    StepKeepsFailures(c, s, e);
    StepAffectsLine(c, s, e);
    GainIsGrowth(Line(s), EffectOf(c, s, e), Line(t));
    match e {
      case CaptureMoves(o) =>
        CaptureKeepsCompletion(c, s, o);
        CaptureLedger(c, s, o);
      case StageMoves(i, o) =>
        StageKeepsCompletion(c, s, i, o);
        if !t.history.failed {
          StageLedger(c, s, i, o);
        }
      case RequestStop =>
        SameLedger(s, t);
      case RunCallback =>
        CloseOnlyCloses(s, 0);
        SameLedger(s, t);
    }
    if !t.history.failed {
      StepKeepsDrained(c, s, e);
    }
  }

  lemma StepKeepsSound(c: Config, s: State, e: Event)
    requires c.Valid() && Sound(c, s) && Shaped(s) && Enabled(c, s, e)
    ensures Sound(c, Step(c, s, e)) && Shaped(Step(c, s, e))
  {
    hide Config.Capacity, Conserved, InOrder, Control, FailureControl, Books, Step, Enabled, WithinCapacity;
    StepKeepsFrames(c, s, e);
    StepKeepsControl(c, s, e);
    StepKeepsFailures(c, s, e);
    StepKeepsBooks(c, s, e);
  }

  lemma InitSound(c: Config)
    requires c.Valid()
    ensures Sound(c, Init(c))
  {
    hide Config.Capacity, Config.Frames, FramesInv, Control, Line;
    InitFrames(c);
    InitControl(c);
    NothingInLine(c);
  }

  lemma {:induction false} RunKeepsSound(c: Config, s: State, es: seq<Event>)
    requires c.Valid() && Sound(c, s) && Follows(c, s, es)
    ensures Sound(c, Run(c, s, es)) && Shaped(Run(c, s, es))
    decreases |es|
  {
    hide FramesInv, Control, FailureControl, Books, Step, Enabled, Config.Capacity;
    SoundIsShaped(c, s);
    if es != [] {
      StepKeepsSound(c, s, es[0]);
      RunKeepsSound(c, Step(c, s, es[0]), es[1..]);
    }
  }

  lemma SoundIsShaped(c: Config, s: State)
    requires c.Valid() && Sound(c, s)
    ensures Shaped(s)
  {
  }

  /**
    When all five threads have exited and nothing has failed, every captured frame was completed or
    dropped, but for at most one that was left in the ingress; and one is left there only if a stop
    request closed the ingress while a push was past its look at the closed flag.
   */
  lemma CapturedFramesAreAccountedFor(c: Config, es: seq<Event>)
    requires c.Valid() && Follows(c, Init(c), es) && Shaped(Run(c, Init(c), es))
    requires AllExited(Run(c, Init(c), es)) && !Run(c, Init(c), es).history.failed
    ensures var s := Run(c, Init(c), es);
      && s.tally.captured == s.tally.completed + s.tally.dropped + |s.queues[0].items|
      && |s.queues[0].items| <= 1
      && (s.queues[0].items != [] ==> s.history.raced && s.signals.stop)
      && s.queues[1].items == s.queues[2].items == s.queues[3].items == []
  {
    hide Step, Enabled, Control, FailureControl, Line, Config.Capacity, Config.Frames, FramesInv;
    InitSound(c);
    RunKeepsSound(c, Init(c), es);
    var s := Run(c, Init(c), es);
    AllFramesComeBack(c, s);
    assert s.stages[0].Exited? && s.stages[1].Exited? && s.stages[2].Exited? && s.stages[3].Exited?;
  }

  /**
    A failure anywhere is stored before its thread exits, so `run` rethrows it; and without one
    nothing is stored and no frame is abandoned.
   */
  lemma FailuresAreReported(c: Config, es: seq<Event>)
    requires c.Valid() && Follows(c, Init(c), es) && Shaped(Run(c, Init(c), es))
    requires AllExited(Run(c, Init(c), es))
    ensures var s := Run(c, Init(c), es); s.history.failed <==> s.signals.error
  {
    hide Step, Enabled, Control, Books, Config.Capacity, Config.Frames, FramesInv;
    InitSound(c);
    RunKeepsSound(c, Init(c), es);
  }
}
