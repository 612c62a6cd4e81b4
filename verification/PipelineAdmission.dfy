/**
  What the queueing policies promise: every frame that got into the ingress is processed. Over
  queues nothing is dropped behind the ingress, so the frames that the sinks have seen, those under
  way and those left in the ingress are the admitted ones, each once and in order.
 */
module PipelineAdmission {
  import opened HandOff
  import opened Pipeline
  import opened PipelineFrames
  import opened PipelineShutdown
  import opened PipelineAccounting
  import opened PipelineDelivery
  import opened PipelineSchedules
  import opened PipelineStranding

  /** Delivered or under way, but for the frame in capture's hand: these are the admitted frames. */
  ghost predicate AllThere(s: State)
    requires Shaped(s)
  {
    Chain(s) == s.history.admitted + Numbers(CaptureHand(s.capture))
  }

  lemma AllStillThere(s: State, t: State)
    requires Shaped(s) && Shaped(t) && AllThere(s) && Chain(t) == Chain(s)
    requires CaptureHand(t.capture) == CaptureHand(s.capture) && t.history.admitted == s.history.admitted
    ensures AllThere(t)
  {
    hide Chain, CaptureHand;
  }

  lemma ThereWhenReading(s: State, f: Frame, t: State)
    requires Shaped(s) && Shaped(t) && AllThere(s) && Affects(Line(s), Enters(f), Line(t))
    requires t.history == s.history && CaptureHand(s.capture) == [] && CaptureHand(t.capture) == [f]
    ensures AllThere(t)
  {
    hide Line, CaptureHand;
    assert Chain(t) == Chain(s) + [f.seqNo];
  }

  lemma ThereWhenInserting(s: State, f: Frame, t: State)
    requires Shaped(s) && Shaped(t) && AllThere(s) && Affects(Line(s), Keeps, Line(t))
    requires t.history.delivered == s.history.delivered && t.history.admitted == s.history.admitted + [f.seqNo]
    requires CaptureHand(s.capture) == [f] && CaptureHand(t.capture) == []
    ensures AllThere(t)
  {
    hide Line, CaptureHand;
    assert Numbers([f]) == [f.seqNo] && Numbers([]) == [];
  }

  lemma ThereWhenRefused(s: State, f: Frame, t: State)
    requires Shaped(s) && Shaped(t) && InOrder(s) && AllThere(s) && Affects(Line(s), Loses(f), Line(t))
    requires t.history == s.history && CaptureHand(s.capture) == [f] && CaptureHand(t.capture) == []
    ensures AllThere(t)
  {
    hide Line, CaptureHand;
    CaptureHandIsLast(s, f);
    var a, b := ChainWithout(s, f, t);
    LosesLast(Chain(s), a, f.seqNo, b, s.tally.nextSeq);
    assert Numbers([f]) == [f.seqNo] && Numbers([]) == [];
  }

  /** Over a queue an insertion displaces nothing, and a blocking push into an open queue loses nothing. */
  lemma QueueDisplacesNothing(policy: Policy, capacity: nat, q: Queue, p: Push)
    requires CanPush(policy, capacity, q, p) && !policy.Latest?
    ensures var x := EffectOfPush(policy, capacity, q, p);
      && (Inserts(p, PushStep(policy, capacity, q, p).1) ==> x.Keeps?)
      && (policy.Block? && !q.closed ==> x.Keeps?)
  {
  }

  lemma CapturePushKeepsAll(c: Config, s: State, p: Push)
    requires c.Valid() && !c.policy.Latest? && Shaped(s) && WithinCapacity(c, s) && InOrder(s) && AllThere(s)
    requires s.capture == Pushing(p)
    requires p.Releasing? || p.Returned? || CanPush(c.policy, c.Capacity(0), s.queues[0], p)
    ensures Shaped(CapturePush(c, s, p)) && AllThere(CapturePush(c, s, p))
  {
    hide Config.Capacity, EffectOfPush, CanPush, PushStep, Line, Affects, WithinCapacity, InOrder,
      AllThere, Inserts, Chain, Segments;
    var t := CapturePush(c, s, p);
    CapturePushingAffectsLine(c, s, p);
    if p.Releasing? || p.Returned? {
      QuietPushKeepsChain(c.policy, c.Capacity(0), s.queues[0], s, p, t);
      AllStillThere(s, t);
    } else {
      PushCases(c.policy, c.Capacity(0), s.queues[0], p);
      QueueDisplacesNothing(c.policy, c.Capacity(0), s.queues[0], p);
      var x := EffectOfPush(c.policy, c.Capacity(0), s.queues[0], p);
      var next := PushStep(c.policy, c.Capacity(0), s.queues[0], p).1;
      if InHand(next) == [p.f] {
        KeepsChain(s, t, x);
        AllStillThere(s, t);
      } else if Inserts(p, next) {
        ThereWhenInserting(s, p.f, t);
      } else {
        ThereWhenRefused(s, p.f, t);
      }
    }
  }

  lemma CaptureKeepsAll(c: Config, s: State, o: Outcome)
    requires c.Valid() && !c.policy.Latest? && Shaped(s) && WithinCapacity(c, s) && InOrder(s) && AllThere(s)
    requires CaptureEnabled(c, s, o)
    ensures Shaped(CaptureStep(c, s, o)) && AllThere(CaptureStep(c, s, o))
  {
    hide Config.Capacity, EffectOfPush, CanPush, CapturePush, Line, Affects, WithinCapacity, InOrder,
      AllThere, Chain, AbortStep, CloseQueue;
    var t := CaptureStep(c, s, o);
    CaptureAffectsLine(c, s, o);
    match s.capture
    case Pushing(p) => CapturePushKeepsAll(c, s, p);
    case Reading(id) =>
      if o.Returns? {
        ThereWhenReading(s, Frame(id, s.tally.nextSeq), t);
      } else {
        KeepsChain(s, t, Keeps);
        AllStillThere(s, t);
      }
    case Aborting(k) => AbortOnlySignals(s, k); KeepsChain(s, t, Keeps); AllStillThere(s, t);
    case CloseIngress => CloseOnlyCloses(s, 0); KeepsChain(s, t, Keeps); AllStillThere(s, t);
    case Acquire => KeepsChain(s, t, Keeps); AllStillThere(s, t);
    case CheckStop => KeepsChain(s, t, Keeps); AllStillThere(s, t);
    case CheckAborted => KeepsChain(s, t, Keeps); AllStillThere(s, t);
    case Dropped(_, _) => KeepsChain(s, t, Keeps); AllStillThere(s, t);
    case CountDrop(_) => KeepsChain(s, t, Keeps); AllStillThere(s, t);
  }

  lemma StagePushKeepsAll(c: Config, s: State, i: nat, p: Push)
    requires c.Valid() && !c.policy.Latest? && Shaped(s) && WithinCapacity(c, s) && AllThere(s)
    requires i < SINK && s.stages[i] == Handing(p) && !s.queues[i + 1].closed
    requires p.Releasing? || p.Returned? || CanPush(c.PolicyOf(i + 1), c.Capacity(i + 1), s.queues[i + 1], p)
    ensures Shaped(StagePush(c, s, i, p)) && AllThere(StagePush(c, s, i, p))
  {
    hide Config.Capacity, EffectOfPush, CanPush, PushStep, Line, Affects, WithinCapacity, AllThere, Chain,
      Inserts;
    var t := StagePush(c, s, i, p);
    StageHandingAffectsLine(c, s, i, p);
    PushKeepsHistory(c, s, i, p);
    StagePushClosesNothing(c, s, i, p);
    if p.Releasing? || p.Returned? {
      QuietPushKeepsChain(c.PolicyOf(i + 1), c.Capacity(i + 1), s.queues[i + 1], s, p, t);
    } else {
      QueueDisplacesNothing(c.PolicyOf(i + 1), c.Capacity(i + 1), s.queues[i + 1], p);
      KeepsChain(s, t, Keeps);
    }
    AllStillThere(s, t);
  }

  lemma StageKeepsAll(c: Config, s: State, i: nat, o: Outcome)
    requires c.Valid() && !c.policy.Latest? && Control(s) && Shaped(s) && FailureControl(s)
    requires WithinCapacity(c, s) && AllThere(s)
    requires i < 4 && StageEnabled(c, s, i) && !StageStep(c, s, i, o).history.failed
    ensures Shaped(StageStep(c, s, i, o)) && AllThere(StageStep(c, s, i, o))
  {
    hide Config.Capacity, EffectOfPush, CanPush, StagePush, Line, Affects, WithinCapacity, AllThere,
      Chain, Control, AbortStep, CloseQueue;
    var t := StageStep(c, s, i, o);
    StageAffectsLine(c, s, i, o);
    StageCounts(c, s, i, o);
    match s.stages[i]
    case Handing(p) =>
      PushKeepsHistory(c, s, i, p);
      OutputStaysOpen(s, i);
      StagePushKeepsAll(c, s, i, p);
    case Aborting(k) => AbortOnlySignals(s, k); KeepsChain(s, t, Keeps); AllStillThere(s, t);
    case CloseOutput =>
      if i < SINK {
        CloseOnlyCloses(s, i + 1);
      }
      KeepsChain(s, t, Keeps); AllStillThere(s, t);
    case Body(f) =>
      if o.Throws? {} else if i == SINK {} else {}
      KeepsChain(s, t, EffectOf(c, s, StageMoves(i, o))); AllStillThere(s, t);
    case Pop => KeepsChain(s, t, Keeps); AllStillThere(s, t);
    case CheckAbort(_) => KeepsChain(s, t, Keeps); AllStillThere(s, t);
    case CountDone(_) => KeepsChain(s, t, Keeps); AllStillThere(s, t);
    case Release(_, _) => KeepsChain(s, t, Keeps); AllStillThere(s, t);
    case CountDrop(_) => KeepsChain(s, t, Keeps); AllStillThere(s, t);
  }

  /** Over queues no failure-free step loses an admitted frame, shuts one out, or changes their order. */
  lemma StepKeepsAll(c: Config, s: State, e: Event)
    requires c.Valid() && !c.policy.Latest? && Control(s) && Shaped(s) && FailureControl(s)
    requires WithinCapacity(c, s) && InOrder(s) && AllThere(s)
    requires Enabled(c, s, e) && !Step(c, s, e).history.failed
    ensures Shaped(Step(c, s, e)) && AllThere(Step(c, s, e))
  {
    hide Config.Capacity, CaptureStep, StageStep, CaptureEnabled, StageEnabled, CloseQueue, Line,
      Affects, WithinCapacity, InOrder, AllThere, Chain, Control, FailureControl;
    var t := Step(c, s, e);
    match e
    case CaptureMoves(o) => CaptureKeepsAll(c, s, o);
    case StageMoves(i, o) => StageKeepsAll(c, s, i, o);
    case RequestStop => StepAffectsLine(c, s, e); KeepsChain(s, t, Keeps); AllStillThere(s, t);
    case RunCallback => CloseOnlyCloses(s, 0); StepAffectsLine(c, s, e); KeepsChain(s, t, Keeps); AllStillThere(s, t);
  }

  lemma {:induction false} RunKeepsAll(c: Config, s: State, es: seq<Event>)
    requires c.Valid() && !c.policy.Latest? && Sound(c, s) && Shaped(s) && Follows(c, s, es)
    requires !s.history.failed ==> AllThere(s)
    ensures Sound(c, Run(c, s, es)) && Shaped(Run(c, s, es))
    ensures !Run(c, s, es).history.failed ==> AllThere(Run(c, s, es))
    decreases |es|
  {
    hide Step, Enabled, AllThere, Control, FailureControl, FramesInv, WithinCapacity, Ledger, Line, Drained,
      Config.Capacity;
    if es != [] {
      StepKeepsSound(c, s, es[0]);
      SoundParts(c, s);
      if !Step(c, s, es[0]).history.failed {
        if s.history.failed {
          FailureStays(c, s, es[0]);
        } else {
          StepKeepsAll(c, s, es[0]);
        }
      }
      RunKeepsAll(c, Step(c, s, es[0]), es[1..]);
    }
  }

  lemma StartsWithNone(c: Config)
    requires c.Valid()
    ensures Shaped(Init(c)) && AllThere(Init(c))
  {
    hide Config.Capacity, Config.Frames, Line;
    NothingInLine(c);
  }

  /**
    Every failure-free run over queues, stopped or not: the sinks have seen the admitted frames, each
    once and in order, but for one at most that is left in the ingress; and frames are dropped at the
    ingress alone.
   */
  lemma AdmittedFramesAreDelivered(c: Config, es: seq<Event>)
    requires c.Valid() && !c.policy.Latest? && Finished(c, es)
    ensures var s := End(c, es);
      && s.history.delivered + Numbers(s.queues[0].items) == s.history.admitted
      && |s.queues[0].items| <= 1 && (s.queues[0].items != [] ==> s.history.raced && s.signals.stop)
      && s.tally.captured == |s.history.admitted| + s.tally.dropped
  {
    hide Step, Enabled, Init, Follows, Run, AllThere, Sound, Config.Capacity, Config.Frames;
    InitSound(c);
    StartsWithNone(c);
    assert !Init(c).history.failed ==> AllThere(Init(c));
    RunKeepsAll(c, Init(c), es);
    CapturedFramesAreAccountedFor(c, es);
    OnlyIngressIsLeft(c, End(c, es));
  }

  lemma OnlyIngressIsLeft(c: Config, s: State)
    requires c.Valid() && Sound(c, s) && Shaped(s) && AllExited(s) && AllThere(s)
    requires s.queues[1].items == s.queues[2].items == s.queues[3].items == []
    ensures s.history.delivered + Numbers(s.queues[0].items) == s.history.admitted
    ensures s.tally.completed == |s.history.delivered|
  {
    hide FramesInv, Control, FailureControl, Ledger, Drained, Line, Config.Capacity, Config.Frames;
    LineBySegments(s);
    var before, after := ChainPair(s, 7);
    assert Segment(s, 7) + Segment(s, 8) == s.queues[0].items;
    assert before == Chain(s)[..|before|] == s.history.delivered;
    assert s.history.admitted + Numbers([]) == s.history.admitted;
  }

  /**
    The promise in full: over queues all failure-free runs deliver exactly the admitted frames if and
    only if nobody may ask the pipeline to stop.
   */
  lemma AllAdmittedAreDeliveredExactlyIf(c: Config, stopsAllowed: bool)
    requires c.Valid() && !c.policy.Latest?
    ensures
      (forall es :: Finished(c, es) && (stopsAllowed || NoStops(es)) ==>
         End(c, es).history.delivered == End(c, es).history.admitted)
      <==> !stopsAllowed
  {
    hide Follows, Run, Init, Config.Frames, Config.Capacity, NoStops;
    if stopsAllowed {
      var es := OneFrameCanBeStranded(c);
    } else {
      forall es | Finished(c, es) && NoStops(es)
        ensures End(c, es).history.delivered == End(c, es).history.admitted
      {
        AdmittedFramesAreDelivered(c, es);
        StrandedExactlyIfStopsAllowed(c, false);
        assert Numbers([]) == [];
      }
    }
  }
}
