/**
  What the ingress policy means behind the ingress. Under `Latest` every hand-off is a mailbox: no
  thread ever waits for room, and each stage finds the newest frame handed to it. Under the other
  policies a thread waits, or drops, only if as many frames are queued as were configured. And once
  a run is aborted no stage starts to work on another frame.
 */
module PipelinePolicies {
  import opened HandOff
  import opened Pipeline
  import opened PipelineFrames
  import opened PipelineSchedules
  import opened Words

  // ---------- mailboxes: nobody waits ----------

  /** No push sleeps for want of room. */
  ghost predicate NobodyWaits(s: State)
    requires Shaped(s)
  {
    && (s.capture.Pushing? ==> !s.capture.p.Waiting?)
    && forall i :: 0 <= i < 4 && s.stages[i].Handing? ==> i < SINK && !s.stages[i].p.Waiting?
  }

  lemma MailboxPushGoesOn(capacity: nat, q: Queue, p: Push)
    requires CanPush(Latest, capacity, q, p)
    ensures !PushStep(Latest, capacity, q, p).1.Waiting?
  {
  }

  lemma CaptureNeverWaits(c: Config, s: State, o: Outcome)
    requires c.Valid() && c.policy.Latest? && Shaped(s) && CaptureEnabled(c, s, o) && NobodyWaits(s)
    ensures Shaped(CaptureStep(c, s, o)) && NobodyWaits(CaptureStep(c, s, o))
  {
    hide Config.Capacity, CanPush, PushStep, AbortStep, CloseQueue;
    match s.capture
    case Pushing(p) =>
      if p.Releasing? {} else if p.Returned? {} else { MailboxPushGoesOn(c.Capacity(0), s.queues[0], p); }
    case Reading(_) => if o.Returns? {} else if o.Ends? {} else {}
    case Aborting(k) => AbortOnlySignals(s, k);
    case CloseIngress => CloseOnlyCloses(s, 0);
    case Acquire =>
    case CheckStop =>
    case CheckAborted =>
    case Dropped(_, _) =>
    case CountDrop(_) =>
  }

  lemma StageNeverWaits(c: Config, s: State, i: nat, o: Outcome)
    requires c.Valid() && c.policy.Latest? && Shaped(s) && i < 4 && StageEnabled(c, s, i) && NobodyWaits(s)
    ensures Shaped(StageStep(c, s, i, o)) && NobodyWaits(StageStep(c, s, i, o))
  {
    hide Config.Capacity, CanPush, PushStep, AbortStep, CloseQueue;
    OneStageMoves(c, s, i, o);
    match s.stages[i]
    case Handing(p) =>
      if p.Releasing? {} else if p.Returned? {} else { MailboxPushGoesOn(c.Capacity(i + 1), s.queues[i + 1], p); }
    case Body(_) => if o.Throws? {} else if i == SINK {} else {}
    case Pop => if |s.queues[i].items| > 0 {} else {}
    case Aborting(k) => AbortOnlySignals(s, k);
    case CloseOutput =>
      if i < SINK {
        CloseOnlyCloses(s, i + 1);
      }
    case CheckAbort(_) =>
    case CountDone(_) =>
    case Release(_, _) =>
    case CountDrop(_) =>
  }

  lemma {:induction false} RunNeverWaits(c: Config, s: State, es: seq<Event>)
    requires c.Valid() && c.policy.Latest? && Shaped(s) && NobodyWaits(s) && Follows(c, s, es)
    ensures Shaped(Run(c, s, es)) && NobodyWaits(Run(c, s, es))
    decreases |es|
  {
    hide Config.Capacity, CaptureStep, StageStep, CaptureEnabled, StageEnabled, CloseQueue, NobodyWaits;
    if es != [] {
      var t := Step(c, s, es[0]);
      match es[0] {
        case CaptureMoves(o) => CaptureNeverWaits(c, s, o);
        case StageMoves(i, o) => StageNeverWaits(c, s, i, o);
        case RequestStop => OnlySignals(s, t);
        case RunCallback => CloseOnlyCloses(s, 0); OnlySignals(s, t);
      }
      RunNeverWaits(c, t, es[1..]);
    }
  }

  lemma OnlySignals(s: State, t: State)
    requires Shaped(s) && NobodyWaits(s) && Shaped(t) && t.capture == s.capture && t.stages == s.stages
    ensures NobodyWaits(t)
  {
  }

  /** In every run under `Latest` whoever pushes a frame can move on at once, and is never put to sleep. */
  lemma LatestNeverWaits(c: Config, es: seq<Event>)
    requires c.Valid() && c.policy.Latest? && Follows(c, Init(c), es)
    ensures var s := Run(c, Init(c), es);
      && Shaped(s)
      && (s.capture.Pushing? ==> !s.capture.p.Waiting? && CaptureEnabled(c, s, Returns))
      && forall i :: 0 <= i < 4 && s.stages[i].Handing? ==> !s.stages[i].p.Waiting? && StageEnabled(c, s, i)
  {
    hide Step, Enabled, Config.Capacity, Config.Frames;
    RunNeverWaits(c, Init(c), es);
  }

  // ---------- mailboxes: the newest frame replaces an older one ----------

  /** A stage hands on f: f is then the frame that the next stage will take, and what stood there is released. */
  lemma LatestReplaces(c: Config, s: State, i: nat, f: Frame, o: Outcome)
    requires c.Valid() && c.policy.Latest? && Shaped(s) && i < SINK && s.stages[i] == Handing(Inserting(f))
    ensures Enabled(c, s, StageMoves(i, o))
    ensures var t := Step(c, s, StageMoves(i, o));
      && t.queues == s.queues[i + 1 := s.queues[i + 1].(items := [f])]
      && t.stages == s.stages[i := Handing(if s.queues[i + 1].items == [] then Returned(Accepted)
                                           else Releasing(s.queues[i + 1].items[0].id, ReplacedStale))]
      && t.free == s.free && t.tally == s.tally && t.capture == s.capture && t.signals == s.signals
  {
    hide Config.Capacity;
  }

  /** One more step of stage i. */
  lemma StageStepsOn(c: Config, s: State, es: seq<Event>, i: nat) returns (more: seq<Event>)
    requires c.Valid() && Follows(c, s, es) && Shaped(Run(c, s, es)) && i < 4 && StageEnabled(c, Run(c, s, es), i)
    ensures Follows(c, s, more) && Run(c, s, more) == StageStep(c, Run(c, s, es), i, Returns)
    ensures more == es + [StageMoves(i, Returns)]
  {
    hide StageEnabled, StageStep;
    OneStepMore(c, s, es, StageMoves(i, Returns));
    more := es + [StageMoves(i, Returns)];
  }

  /**
    The same up to the end of the push, by steps of stage i alone: the replaced frame is back in the
    pool and counted as dropped, one frame for one; and nothing is dropped if nothing stood there.
   */
  lemma ReplacedIsReleasedAndCounted(c: Config, s: State, i: nat, f: Frame) returns (es: seq<Event>)
    requires c.Valid() && c.policy.Latest? && Shaped(s) && i < SINK && s.stages[i] == Handing(Inserting(f))
    ensures Follows(c, s, es) && forall k :: 0 <= k < |es| ==> es[k] == StageMoves(i, Returns)
    ensures var stale := s.queues[i + 1].items;
      Run(c, s, es) ==
      s.(queues := s.queues[i + 1 := s.queues[i + 1].(items := [f])],
         stages := s.stages[i := Pop],
         free := if stale == [] then s.free else s.free + [stale[0].id],
         tally := s.tally.(dropped := s.tally.dropped + if stale == [] then 0 else 1))
  {
    hide Follows, Run, Config.Capacity;
    assert Follows(c, s, []) && Run(c, s, []) == s by { NoSteps(c, s); }
    LatestReplaces(c, s, i, f, Returns);
    es := StageStepsOn(c, s, [], i);
    if s.queues[i + 1].items != [] {
      es := StageStepsOn(c, s, es, i);
    }
    es := StageStepsOn(c, s, es, i);
    es := StageStepsOn(c, s, es, i);
  }

  lemma NoSteps(c: Config, s: State)
    requires c.Valid()
    ensures Follows(c, s, []) && Run(c, s, []) == s
  {
  }

  /** What is in the hand-off between two stages is changed by these two alone. */
  lemma HandOffIsBetweenNeighbours(c: Config, s: State, e: Event, k: nat)
    requires c.Valid() && Shaped(s) && Enabled(c, s, e) && 1 <= k < 4
    requires e.StageMoves? ==> e.i != k - 1 && e.i != k
    ensures Shaped(Step(c, s, e)) && Step(c, s, e).queues[k].items == s.queues[k].items
  {
    hide Config.Capacity, CanPush, PushStep, AbortStep, CloseQueue;
    match e
    case CaptureMoves(o) =>
      match s.capture {
        case Pushing(p) => if p.Releasing? {} else if p.Returned? {} else {}
        case Reading(_) => if o.Returns? {} else if o.Ends? {} else {}
        case Aborting(j) => AbortOnlySignals(s, j);
        case CloseIngress => CloseOnlyCloses(s, 0);
        case _ =>
      }
    case StageMoves(i, o) =>
      match s.stages[i] {
        case Handing(p) => if p.Releasing? {} else if p.Returned? {} else {}
        case Body(_) => if o.Throws? {} else if i == SINK {} else {}
        case Pop => if |s.queues[i].items| > 0 {} else {}
        case Aborting(j) => AbortOnlySignals(s, j);
        case CloseOutput =>
          if i < SINK {
            CloseOnlyCloses(s, i + 1);
          }
        case _ =>
      }
    case RequestStop =>
    case RunCallback => CloseOnlyCloses(s, 0);
  }

  // ---------- queues: waiting and dropping ----------

  lemma CapacityIsAsConfigured(c: Config, k: nat)
    requires c.Valid() && !c.policy.Latest?
    ensures var asked := if k == 0 then c.ingressCapacity else c.stageCapacity;
      asked <= c.Capacity(k) < 2 * asked
  {
    hide BitCeil;
  }

  lemma ReachedWithinCapacity(c: Config, es: seq<Event>)
    requires c.Valid() && Follows(c, Init(c), es)
    ensures WithinCapacity(c, End(c, es))
  {
    hide Step, Enabled, Config.Capacity, Config.Frames;
    InitFrames(c);
    RunKeepsFrames(c, Init(c), es);
  }

  /**
    The ingress queue holds as many frames as configured, and less than twice that. With fewer
    queued a frame gets in; with more it may, or capture is told to wait, or to drop it, as the
    policy says.
   */
  lemma IngressHoldsWhatIsConfigured(c: Config, es: seq<Event>, f: Frame, o: Outcome)
    requires c.Valid() && !c.policy.Latest? && Follows(c, Init(c), es) && End(c, es).capture == Pushing(Inserting(f))
    ensures var s := End(c, es);
      && Shaped(s) && |s.queues[0].items| < 2 * c.ingressCapacity && Enabled(c, s, CaptureMoves(o))
      && var t := Step(c, s, CaptureMoves(o));
         || (t.queues[0].items == s.queues[0].items + [f] && t.capture == Pushing(Returned(Accepted)))
         || (t.queues == s.queues && |s.queues[0].items| >= c.ingressCapacity
             && t.capture == Pushing(if c.policy.Block? then Waiting(f) else Releasing(f.id, DroppedIncoming)))
  {
    hide Run, Follows, Init, Config.Capacity, Config.Frames;
    ReachedWithinCapacity(c, es);
    CapacityIsAsConfigured(c, 0);
    assert Bounded(c.PolicyOf(0), c.Capacity(0), End(c, es).queues[0]);
    if c.policy.Block? {} else {}
  }

  /** The same between two stages, where under either policy a frame is never dropped, but waits. */
  lemma StageQueueHoldsWhatIsConfigured(c: Config, es: seq<Event>, i: nat, f: Frame, o: Outcome)
    requires c.Valid() && !c.policy.Latest? && Follows(c, Init(c), es) && i < SINK
    requires Shaped(End(c, es)) && End(c, es).stages[i] == Handing(Inserting(f))
    ensures var s := End(c, es);
      && |s.queues[i + 1].items| < 2 * c.stageCapacity && Enabled(c, s, StageMoves(i, o))
      && var t := Step(c, s, StageMoves(i, o));
         || (t.queues[i + 1].items == s.queues[i + 1].items + [f] && t.stages[i] == Handing(Returned(Accepted)))
         || (t.queues == s.queues && |s.queues[i + 1].items| >= c.stageCapacity && t.stages[i] == Handing(Waiting(f)))
  {
    hide Run, Follows, Init, Config.Capacity, Config.Frames;
    ReachedWithinCapacity(c, es);
    CapacityIsAsConfigured(c, i + 1);
    assert Bounded(c.PolicyOf(i + 1), c.Capacity(i + 1), End(c, es).queues[i + 1]);
  }

  // ---------- after an abort ----------

  lemma AbortedStageStartsNothing(c: Config, s: State, i: nat, o: Outcome)
    requires c.Valid() && Shaped(s) && i < 4 && StageEnabled(c, s, i) && s.signals.aborted
    ensures var t := StageStep(c, s, i, o);
      && Shaped(t) && t.signals.aborted && !t.stages[i].Body?
      && (forall j :: 0 <= j < 4 && j != i ==> t.stages[j] == s.stages[j])
      && t.history.delivered == s.history.delivered
           + (if i == SINK && s.stages[i].Body? && !o.Throws? then [s.stages[i].f.seqNo] else [])
  {
    hide Config.Capacity, CanPush, PushStep, AbortStep, CloseQueue;
    OneStageMoves(c, s, i, o);
    match s.stages[i]
    case Handing(p) => if p.Releasing? {} else if p.Returned? {} else {}
    case Body(_) => if o.Throws? {} else if i == SINK {} else {}
    case Pop => if |s.queues[i].items| > 0 {} else {}
    case Aborting(k) => AbortOnlySignals(s, k);
    case CloseOutput =>
      if i < SINK {
        CloseOnlyCloses(s, i + 1);
      }
    case CheckAbort(_) =>
    case CountDone(_) =>
    case Release(_, _) =>
    case CountDrop(_) =>
  }

  lemma AbortedStepStartsNothing(c: Config, s: State, e: Event)
    requires c.Valid() && Shaped(s) && Enabled(c, s, e) && s.signals.aborted
    ensures var t := Step(c, s, e);
      && Shaped(t) && t.signals.aborted
      && (forall j :: 0 <= j < 4 && t.stages[j].Body? ==> s.stages[j] == t.stages[j])
      && |t.history.delivered| + (if t.stages[SINK].Body? then 1 else 0)
           <= |s.history.delivered| + (if s.stages[SINK].Body? then 1 else 0)
  {
    hide Config.Capacity, CaptureStep, StageStep, CaptureEnabled, StageEnabled, CloseQueue;
    match e
    case CaptureMoves(o) => AbortedCaptureDelivers(c, s, o);
    case StageMoves(i, o) => AbortedStageStartsNothing(c, s, i, o);
    case RequestStop =>
    case RunCallback => CloseOnlyCloses(s, 0);
  }

  lemma AbortedCaptureDelivers(c: Config, s: State, o: Outcome)
    requires c.Valid() && Shaped(s) && CaptureEnabled(c, s, o) && s.signals.aborted
    ensures var t := CaptureStep(c, s, o);
      Shaped(t) && t.signals.aborted && t.stages == s.stages && t.history.delivered == s.history.delivered
  {
    hide Config.Capacity, CanPush, PushStep, AbortStep, CloseQueue;
    match s.capture
    case Pushing(p) => if p.Releasing? {} else if p.Returned? {} else {}
    case Reading(_) => if o.Returns? {} else if o.Ends? {} else {}
    case Aborting(k) => AbortOnlySignals(s, k);
    case CloseIngress => CloseOnlyCloses(s, 0);
    case Acquire =>
    case CheckStop =>
    case CheckAborted =>
    case Dropped(_, _) =>
    case CountDrop(_) =>
  }

  /**
    Once the abort flag is set no stage starts on a frame, on no schedule: whoever is in its body at
    the end was in it then, with the same frame, and the sinks see one more frame at most, and that
    only if they were being called.
   */
  lemma {:induction false} NothingStartsAfterAbort(c: Config, s: State, es: seq<Event>)
    requires c.Valid() && Shaped(s) && Follows(c, s, es) && s.signals.aborted
    ensures var t := Run(c, s, es);
      && Shaped(t)
      && (forall j :: 0 <= j < 4 && t.stages[j].Body? ==> s.stages[j] == t.stages[j])
      && |t.history.delivered| + (if t.stages[SINK].Body? then 1 else 0)
           <= |s.history.delivered| + (if s.stages[SINK].Body? then 1 else 0)
    decreases |es|
  {
    hide Step, Enabled, Config.Capacity;
    if es != [] {
      AbortedStepStartsNothing(c, s, es[0]);
      NothingStartsAfterAbort(c, Step(c, s, es[0]), es[1..]);
    }
  }

  // ---------- how many frames there are ----------

  /**
    A configured pool has as many frames as configured, never more out of it, and all of them back at
    the end; a pool left to be sized always has a frame for capture.
   */
  lemma PoolIsAsConfigured(c: Config, es: seq<Event>)
    requires c.Valid() && Follows(c, Init(c), es)
    ensures var s := End(c, es);
      && Shaped(s)
      && (c.poolSize > 0 ==> |s.free| + |Line(s)| <= c.poolSize)
      && (c.poolSize > 0 && AllExited(s) ==> |DestroyQueues(s)| == c.poolSize)
      && (c.poolSize == 0 && s.capture.Acquire? ==> |s.free| > 0)
  {
    hide Step, Enabled, Config.Capacity, Run, Follows, Init, Line, InOrder, DestroyQueues, AllExited;
    InitFrames(c);
    RunKeepsFrames(c, Init(c), es);
    var s := End(c, es);
    assert Accounted(c, s, All);
    InLineAll(Line(s));
    if c.poolSize > 0 && AllExited(s) {
      AllFramesComeBack(c, s);
      assert Copies(DestroyQueues(s), All) == Total(c, All);
    }
    if c.poolSize == 0 && s.capture.Acquire? {
      AcquireNeverWaits(c, s);
    }
  }
}
