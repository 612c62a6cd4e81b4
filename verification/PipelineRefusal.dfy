/**
  The frame that is counted and never admitted. Over a mailbox a push looks at the closed flag
  twice; a close between the two looks refuses the frame, but is reported as the replacement of a
  stale one, so capture counts a frame as captured and dropped that was never in the ingress.
 */
module PipelineRefusal {
  import opened Common
  import opened HandOff
  import opened Pipeline
  import opened PipelineFrames
  import opened PipelineShutdown
  import opened PipelineAccounting
  import opened PipelineSchedules
  import opened PipelineStranding

  /** Between the two looks of capture's push, a close. */
  ghost predicate Refusing(s: State) {
    Shaped(s) && s.capture.Pushing? && s.capture.p.Publishing? && s.queues[0].closed
  }

  // ---------- a run that counts a refused frame ----------

  /** Capture is between the two looks; nothing else has happened but for a stop request and its callback. */
  function Caught(c: Config): State
    requires c.Valid()
  {
    Overtaken(c).(capture := Pushing(Publishing(First(c))))
  }

  /** Capture has counted its frame twice, and everybody has left. */
  function Refused(c: Config): State
    requires c.Valid()
  {
    State(Rest(c) + [First(c).id], ALL_CLOSED, Capture.Exited, ALL_GONE,
          Signals(true, false, false, false), Tally(1, 1, 0, 1), History([], false, true, [], Some(0)))
  }

  lemma GetsCaught(c: Config) returns (es: seq<Event>)
    requires c.Valid() && c.policy.Latest?
    ensures Follows(c, Init(c), es) && End(c, es) == Caught(c) && Refusing(End(c, es))
  {
    hide Follows, Run, Config.Frames, Config.Capacity, MayRead;
    StartMayRead(c);
    es := CaptureReads(c, []);
    es := CaptureGoesOn(c, es, Returns);
    OneStepMore(c, Init(c), es, RequestStop);
    OneStepMore(c, Init(c), es + [RequestStop], RunCallback);
    es := es + [RequestStop] + [RunCallback];
  }

  lemma CaptureCounts(c: Config, es: seq<Event>) returns (more: seq<Event>)
    requires c.Valid() && Follows(c, Init(c), es) && End(c, es) == Caught(c)
    ensures Follows(c, Init(c), more)
    ensures End(c, more) == Refused(c).(queues := Caught(c).queues, stages := Caught(c).stages)
  {
    hide Follows, Run, Init, Config.Frames, Config.Capacity;
    more := CaptureGoesOn(c, es, Returns);
    more := CaptureGoesOn(c, more, Returns);
    more := CaptureGoesOn(c, more, Returns);
    more := CaptureGoesOn(c, more, Returns);
    more := CaptureGoesOn(c, more, Returns);
    CloseOnlyCloses(End(c, more), 0);
    more := CaptureGoesOn(c, more, Returns);
    assert End(c, more).queues == Caught(c).queues;
  }

  /** Over mailboxes every configuration can end with a frame counted that was never admitted: here is the run. */
  lemma RefusedFrameCanBeCounted(c: Config) returns (es: seq<Event>)
    requires c.Valid() && c.policy.Latest?
    ensures Finished(c, es) && End(c, es) == Refused(c)
    ensures var s := End(c, es);
      && s.tally.captured == 1 == s.tally.dropped && s.tally.completed == 0
      && s.history.admitted == [] == s.history.delivered
  {
    hide Follows, Run, Init, Config.Frames, Config.Capacity;
    es := GetsCaught(c);
    es := CaptureCounts(c, es);
    es := StagesLeave(c, es);
  }

  // ---------- when it can happen ----------

  /** Only a mailbox looks twice. */
  ghost predicate PublishesToMailbox(c: Config, s: State) {
    s.capture.Pushing? && s.capture.p.Publishing? ==> c.policy.Latest?
  }

  lemma StepKeepsMailbox(c: Config, s: State, e: Event)
    requires c.Valid() && Shaped(s) && Enabled(c, s, e) && PublishesToMailbox(c, s)
    ensures PublishesToMailbox(c, Step(c, s, e))
  {
    hide Config.Capacity, AbortStep, CloseQueue, StageStep, StageEnabled, Full;
    match e
    case CaptureMoves(o) =>
      match s.capture {
        case Pushing(p) => if p.Releasing? {} else if p.Returned? {} else {}
        case Reading(_) => if o.Returns? {} else if o.Ends? {} else {}
        case _ =>
      }
    case StageMoves(i, o) => OneStageMoves(c, s, i, o);
    case RequestStop =>
    case RunCallback => CloseOnlyCloses(s, 0);
  }

  lemma {:induction false} RunKeepsMailbox(c: Config, s: State, es: seq<Event>)
    requires c.Valid() && Follows(c, s, es) && PublishesToMailbox(c, s)
    ensures PublishesToMailbox(c, Run(c, s, es))
    decreases |es|
  {
    hide Step, Enabled, PublishesToMailbox, Config.Capacity;
    if es != [] {
      StepKeepsMailbox(c, s, es[0]);
      RunKeepsMailbox(c, Step(c, s, es[0]), es[1..]);
    }
  }

  lemma RefusalNeedsStop(c: Config, s: State)
    requires c.Valid() && Sound(c, s) && Refusing(s)
    ensures s.signals.stop
  {
    hide FramesInv, FailureControl, Books, CaptureControl, StageControl;
    assert ClosedFor(s, 0);
  }

  /**
    In every configuration a failure-free run can catch capture's push between its two looks if and
    only if stop requests are allowed and the policy is `Latest`.
   */
  lemma RefusingExactlyIf(c: Config, stopsAllowed: bool)
    requires c.Valid()
    ensures
      (exists es :: Follows(c, Init(c), es) && !End(c, es).history.failed && (stopsAllowed || NoStops(es))
         && Refusing(End(c, es)))
      <==> stopsAllowed && c.policy.Latest?
  {
    hide Follows, Run, Config.Frames, Config.Capacity, NoStops, Sound, Refusing;
    if stopsAllowed && c.policy.Latest? {
      var es := GetsCaught(c);
    } else {
      forall es | Follows(c, Init(c), es) && !End(c, es).history.failed && (stopsAllowed || NoStops(es))
        ensures !Refusing(End(c, es))
      {
        InitSound(c);
        RunKeepsSound(c, Init(c), es);
        RunKeepsMailbox(c, Init(c), es);
        if Refusing(End(c, es)) {
          RefusalNeedsStop(c, End(c, es));
          assert c.policy.Latest? by { RefusalIsByMailbox(c, End(c, es)); }
          NoStopsNoFlag(c, Init(c), es);
        }
      }
    }
  }

  lemma RefusalIsByMailbox(c: Config, s: State)
    requires Refusing(s) && PublishesToMailbox(c, s)
    ensures c.policy.Latest?
  {
  }

  // ---------- how many there are ----------

  /** Capture is done with its push, and will read no other frame once a stop was requested. */
  predicate Leaving(g: Capture) {
    match g
    case Pushing(p) => p.Releasing? || p.Returned?
    case CountDrop(_) => true
    case CheckStop => true
    case CloseIngress => true
    case Exited => true
    case _ => false
  }

  /** Frames counted, or about to be, and never admitted. */
  ghost function Refusals(s: State): int {
    s.tally.captured + (if s.capture.Pushing? then Admits(s.capture.p) else 0) - |s.history.admitted|
  }

  /** Over mailboxes at most one frame is refused, and capture leaves with it. */
  ghost predicate FewRefusals(s: State) {
    Refusals(s) == 0 || (Refusals(s) == 1 && s.signals.stop && Leaving(s.capture))
  }

  /** A push over a mailbox admits its frame, or finds the mailbox closed. */
  lemma MailboxAdmitsOrRefuses(capacity: nat, q: Queue, p: Push)
    requires CanPush(Latest, capacity, q, p)
    ensures var next := PushStep(Latest, capacity, q, p).1;
      && !p.Releasing? && !p.Returned?
      && (Inserts(p, next) ==> Admits(next) == 1)
      && (!Inserts(p, next) && Admits(next) == 1 ==> q.closed && next.Releasing?)
  {
  }

  lemma CapturePushRefusesFew(c: Config, s: State, p: Push)
    requires c.Valid() && c.policy.Latest? && Control(s) && FewRefusals(s) && s.capture == Pushing(p)
    requires p.Releasing? || p.Returned? || CanPush(c.policy, c.Capacity(0), s.queues[0], p)
    ensures FewRefusals(CapturePush(c, s, p))
  {
    hide Config.Capacity, CanPush, PushStep, Inserts, CaptureControl, StageControl;
    assert ClosedFor(s, 0);
    if p.Releasing? {
    } else if p.Returned? {
      if p.result.Closed? {}
    } else {
      MailboxAdmitsOrRefuses(c.Capacity(0), s.queues[0], p);
    }
  }

  lemma CaptureRefusesFew(c: Config, s: State, o: Outcome)
    requires c.Valid() && c.policy.Latest? && Shaped(s) && Control(s) && FewRefusals(s) && CaptureEnabled(c, s, o)
    ensures FewRefusals(CaptureStep(c, s, o))
  {
    hide Config.Capacity, CanPush, CapturePush, AbortStep, CloseQueue, Control;
    match s.capture
    case Pushing(p) => CapturePushRefusesFew(c, s, p);
    case Reading(_) => if o.Returns? {} else if o.Ends? {} else {}
    case Aborting(k) => AbortOnlySignals(s, k);
    case CloseIngress => CloseOnlyCloses(s, 0);
    case Acquire =>
    case CheckStop =>
    case CheckAborted =>
    case Dropped(_, _) =>
    case CountDrop(_) =>
  }

  lemma StageRefusesNone(c: Config, s: State, i: nat, o: Outcome)
    requires c.Valid() && Shaped(s) && FewRefusals(s) && i < 4 && StageEnabled(c, s, i)
    ensures FewRefusals(StageStep(c, s, i, o))
  {
    hide Config.Capacity, CanPush, PushStep, AbortStep, CloseQueue, Leaving;
    match s.stages[i]
    case Handing(p) => if p.Releasing? {} else if p.Returned? {} else {}
    case Body(_) => if o.Throws? {} else if i == SINK {} else {}
    case Pop => if |s.queues[i].items| > 0 {} else {}
    case Aborting(k) => AbortOnlySignals(s, k);
    case CloseOutput =>
      if i < SINK {
        CloseOnlyCloses(s, i + 1);
      }
    case CheckAbort(_) =>
    case CountDone(_) =>
    case Release(_, _) =>
    case CountDrop(_) =>
  }

  lemma StepRefusesFew(c: Config, s: State, e: Event)
    requires c.Valid() && c.policy.Latest? && Shaped(s) && Control(s) && FewRefusals(s) && Enabled(c, s, e)
    ensures FewRefusals(Step(c, s, e))
  {
    hide Config.Capacity, CaptureStep, StageStep, CaptureEnabled, StageEnabled, CloseQueue, Control;
    match e
    case CaptureMoves(o) => CaptureRefusesFew(c, s, o);
    case StageMoves(i, o) => StageRefusesNone(c, s, i, o);
    case RequestStop =>
    case RunCallback => CloseOnlyCloses(s, 0);
  }

  lemma {:induction false} RunRefusesFew(c: Config, s: State, es: seq<Event>)
    requires c.Valid() && c.policy.Latest? && Control(s) && FewRefusals(s) && Follows(c, s, es)
    ensures FewRefusals(Run(c, s, es))
    decreases |es|
  {
    hide Step, Enabled, FewRefusals, CaptureControl, StageControl, ClosedFor, Config.Capacity;
    if es != [] {
      StepKeepsControl(c, s, es[0]);
      StepRefusesFew(c, s, es[0]);
      RunRefusesFew(c, Step(c, s, es[0]), es[1..]);
    }
  }

  /** In every run over mailboxes all captured frames were admitted, but for at most one, after a stop. */
  lemma AtMostOneIsRefused(c: Config, es: seq<Event>)
    requires c.Valid() && c.policy.Latest? && Follows(c, Init(c), es) && !End(c, es).capture.Pushing?
    ensures var s := End(c, es);
      |s.history.admitted| <= s.tally.captured <= |s.history.admitted| + if s.signals.stop then 1 else 0
  {
    hide Step, Enabled, Control, Config.Capacity, Config.Frames;
    InitControl(c);
    RunRefusesFew(c, Init(c), es);
  }

  /**
    Over mailboxes, in every configuration, a whole failure-free run can have counted a frame that
    was never admitted if and only if stop requests are allowed.
   */
  lemma RefusedIsCountedExactlyIf(c: Config, stopsAllowed: bool)
    requires c.Valid() && c.policy.Latest?
    ensures
      (exists es :: Finished(c, es) && (stopsAllowed || NoStops(es))
         && End(c, es).tally.captured > |End(c, es).history.admitted|)
      <==> stopsAllowed
  {
    hide Follows, Run, Init, Config.Frames, Config.Capacity, NoStops, Sound;
    if stopsAllowed {
      var es := RefusedFrameCanBeCounted(c);
    } else {
      forall es | Finished(c, es) && NoStops(es)
        ensures End(c, es).tally.captured <= |End(c, es).history.admitted|
      {
        InitSound(c);
        NothingStopped(c);
        NoStopsNoFlag(c, Init(c), es);
        AtMostOneIsRefused(c, es);
      }
    }
  }
}
