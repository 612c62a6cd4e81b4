/**
  Runs end. Once the pipeline is winding down (a stop request, an abort, the end of the source, or
  a frame limit), every step of every thread lowers a rank, so no schedule is longer than the
  rank of the state it starts in; and as nobody deadlocks, a schedule that can not go on has seen
  all five threads exit.
 */
module PipelineTermination {
  import opened HandOff
  import opened Pipeline
  import opened PipelineFrames
  import opened PipelineShutdown

  /** What a frame in hand-off k still costs: to be popped, worked on and handed on, four times at most. */
  function Weight(k: nat): nat
    requires k <= 4
  {
    13 * (4 - k)
  }

  function PushRank(policy: Policy, capacity: nat, q: Queue, p: Push, weight: nat): nat {
    match p
    case Checking(_) => weight + if q.closed then 4 else if Full(policy, capacity, q) then 9 else 5
    case Publishing(_) => weight + if Full(policy, capacity, q) then 9 else 4
    case Inserting(_) => weight + if Full(policy, capacity, q) then 8 else 3
    case Waiting(_) => weight + 7
    case Releasing(_, _) => 2
    case Returned(_) => 1
  }

  function StageRank(policy: Policy, capacity: nat, q: Queue, g: Stage, weight: nat): nat {
    match g
    case CheckAbort(_) => weight + 14
    case Body(_) => weight + 13
    case CountDone(_) => 10
    case Release(_, _) => 9
    case Handing(p) => 3 + PushRank(policy, capacity, q, p, weight)
    case CountDrop(_) => 3
    case Aborting(k) => if k <= 6 then 8 - k else 2
    case Pop => 2
    case CloseOutput => 1
    case Exited => 0
  }

  /** How many more frames capture may read after the round it is in. */
  function Rounds(c: Config, s: State): nat {
    if s.signals.stop || s.signals.aborted || s.tally.nextSeq >= c.maxFrames then 0 else c.maxFrames - s.tally.nextSeq
  }

  function AtLeastOne(n: nat): nat {
    if n == 0 then 1 else n
  }

  function CaptureRank(c: Config, s: State): nat
    requires c.Valid() && Shaped(s)
  {
    match s.capture
    case CheckStop => 11 + 100 * Rounds(c, s)
    case CheckAborted =>
      if s.signals.aborted || (c.maxFrames > 0 && s.tally.nextSeq >= c.maxFrames) then 10
        else 10 + 100 * AtLeastOne(Rounds(c, s))
    case Acquire => 9 + 100 * AtLeastOne(Rounds(c, s))
    case Reading(_) => 8 + 100 * AtLeastOne(Rounds(c, s))
    case Pushing(p) => 13 + PushRank(c.policy, c.Capacity(0), s.queues[0], p, Weight(0)) + 100 * Rounds(c, s)
    case CountDrop(_) => 12 + 100 * Rounds(c, s)
    case Dropped(_, _) => 9
    case Aborting(k) => if k <= 6 then 8 - k else 2
    case CloseIngress => 1
    case Exited => 0
  }

  /** Stage i's rank; only the hand-off it pushes to matters to it, and the sink pushes to none. */
  function RankOf(c: Config, s: State, i: nat): nat
    requires c.Valid() && Shaped(s) && i < 4
  {
    if i < SINK then StageRank(c.PolicyOf(i + 1), c.Capacity(i + 1), s.queues[i + 1], s.stages[i], Weight(i + 1))
    else StageRank(Block, 0, Queue([], true), s.stages[i], 0)
  }

  function SignalRank(g: Signals): nat {
    (if g.stop then 0 else 2) + if g.callbackPending then 1 else 0
  }

  function QueueRank(s: State): nat
    requires Shaped(s)
  {
    52 * |s.queues[0].items| + 39 * |s.queues[1].items| + 26 * |s.queues[2].items| + 13 * |s.queues[3].items|
  }

  function Rank(c: Config, s: State): nat
    requires c.Valid() && Shaped(s)
  {
    CaptureRank(c, s) + RankOf(c, s, 0) + RankOf(c, s, 1) + RankOf(c, s, 2) + RankOf(c, s, 3)
    + QueueRank(s) + SignalRank(s.signals)
  }

  /** The capture loop is bound to end. */
  ghost predicate WindingDown(c: Config, s: State) {
    || s.signals.stop || s.signals.aborted || c.maxFrames > 0
    || s.capture.Dropped? || s.capture.Aborting? || s.capture.CloseIngress? || s.capture.Exited?
  }

  // ---------- a step of one thread does not raise the rank of another ----------

  lemma PushRankFalls(policy: Policy, capacity: nat, q: Queue, r: Queue, p: Push, weight: nat)
    requires (q.closed ==> r.closed) && |r.items| <= |q.items|
    ensures PushRank(policy, capacity, r, p, weight) <= PushRank(policy, capacity, q, p, weight)
  {
  }

  lemma StageRankFalls(c: Config, s: State, t: State, i: nat)
    requires c.Valid() && Later(s, t) && i < 4 && t.stages[i] == s.stages[i]
    requires i < SINK ==> |t.queues[i + 1].items| <= |s.queues[i + 1].items|
    ensures RankOf(c, t, i) <= RankOf(c, s, i)
  {
    hide Config.Capacity, PushRank;
    if i < SINK && s.stages[i].Handing? {
      PushRankFalls(c.PolicyOf(i + 1), c.Capacity(i + 1), s.queues[i + 1], t.queues[i + 1], s.stages[i].p,
        Weight(i + 1));
    }
  }

  lemma CaptureRankFalls(c: Config, s: State, t: State)
    requires c.Valid() && Later(s, t) && t.capture == s.capture && t.tally.nextSeq == s.tally.nextSeq
    requires |t.queues[0].items| <= |s.queues[0].items|
    ensures CaptureRank(c, t) <= CaptureRank(c, s)
  {
    hide Config.Capacity, PushRank;
    if s.capture.Pushing? {
      PushRankFalls(c.policy, c.Capacity(0), s.queues[0], t.queues[0], s.capture.p, Weight(0));
    }
  }

  /** Everything in the rank but what stage i contributes itself and what it moves. */
  lemma OthersFall(c: Config, s: State, t: State, i: nat)
    requires c.Valid() && Later(s, t) && i < 4 && t.stages == s.stages[i := t.stages[i]]
    requires t.capture == s.capture && t.tally.nextSeq == s.tally.nextSeq
    requires forall k :: 0 <= k < 4 && k != i + 1 ==> |t.queues[k].items| <= |s.queues[k].items|
    requires RankOf(c, t, i) + QueueRank(t) + SignalRank(t.signals)
      < RankOf(c, s, i) + QueueRank(s) + SignalRank(s.signals)
    ensures Rank(c, t) < Rank(c, s)
  {
    hide Config.Capacity, RankOf, CaptureRank, QueueRank, SignalRank, Later;
    LaterShaped(s, t);
    CaptureRankFalls(c, s, t);
    if i != 0 { StageRankFalls(c, s, t, 0); }
    if i != 1 { StageRankFalls(c, s, t, 1); }
    if i != 2 { StageRankFalls(c, s, t, 2); }
    if i != 3 { StageRankFalls(c, s, t, 3); }
  }

  lemma LaterShaped(s: State, t: State)
    requires Later(s, t)
    ensures Shaped(s) && Shaped(t)
  {
  }

  lemma StagesFall(c: Config, s: State, t: State)
    requires c.Valid() && Later(s, t) && t.stages == s.stages
    requires forall k :: 1 <= k < 4 ==> |t.queues[k].items| <= |s.queues[k].items|
    requires CaptureRank(c, t) + QueueRank(t) + SignalRank(t.signals)
      < CaptureRank(c, s) + QueueRank(s) + SignalRank(s.signals)
    ensures Rank(c, t) < Rank(c, s)
  {
    hide Config.Capacity, RankOf, CaptureRank, QueueRank, SignalRank, Later;
    LaterShaped(s, t);
    StageRankFalls(c, s, t, 0);
    StageRankFalls(c, s, t, 1);
    StageRankFalls(c, s, t, 2);
    StageRankFalls(c, s, t, 3);
  }

  // ---------- one step of a stage ----------

  /** Inserting a frame costs no more than handing it on is worth. */
  lemma PushLowersRank(policy: Policy, capacity: nat, q: Queue, p: Push, weight: nat)
    requires CanPush(policy, capacity, q, p)
    ensures var (q', p') := PushStep(policy, capacity, q, p);
      && q'.closed == q.closed && |q'.items| <= |q.items| + 1
      && (|q'.items| <= |q.items| ==>
            PushRank(policy, capacity, q', p', weight) < PushRank(policy, capacity, q, p, weight))
      && (|q'.items| == |q.items| + 1 ==>
            PushRank(policy, capacity, q', p', weight) + weight < PushRank(policy, capacity, q, p, weight))
  {
  }

  lemma LastPushRanks(policy: Policy, capacity: nat, q: Queue, weight: nat)
    ensures forall id, r :: PushRank(policy, capacity, q, Releasing(id, r), weight) == 2
    ensures forall r :: PushRank(policy, capacity, q, Returned(r), weight) == 1
  {
  }

  /** What an action of stage i changes besides the stage itself: nothing that could raise the rank. */
  ghost predicate StageOnly(s: State, t: State, i: nat) {
    && Later(s, t) && i < 4 && t.stages == s.stages[i := t.stages[i]]
    && t.capture == s.capture && t.tally.nextSeq == s.tally.nextSeq
    && t.signals.callbackPending == s.signals.callbackPending
  }

  lemma StagePopLowersRank(c: Config, s: State, i: nat)
    requires c.Valid() && Shaped(s) && i < 4 && s.stages[i].Pop?
    ensures Shaped(StagePop(s, i)) && Rank(c, StagePop(s, i)) < Rank(c, s)
  {
    hide Config.Capacity, Rank, CaptureRank, SignalRank;
    if i == 0 {} else if i == 1 {} else if i == 2 {} else {}
    if |s.queues[i].items| > 0 {} else {}
    OthersFall(c, s, StagePop(s, i), i);
  }

  lemma StagePushLowersRank(c: Config, s: State, i: nat, p: Push)
    requires c.Valid() && Shaped(s) && i < SINK && s.stages[i] == Handing(p)
    requires p.Releasing? || p.Returned? || CanPush(c.PolicyOf(i + 1), c.Capacity(i + 1), s.queues[i + 1], p)
    ensures Shaped(StagePush(c, s, i, p)) && Rank(c, StagePush(c, s, i, p)) < Rank(c, s)
  {
    hide Config.Capacity, Rank, CaptureRank, SignalRank, PushStep, CanPush, PushRank;
    var t := StagePush(c, s, i, p);
    if p.Releasing? || p.Returned? {
      LastPushRanks(c.PolicyOf(i + 1), c.Capacity(i + 1), s.queues[i + 1], Weight(i + 1));
    } else {
      PushLowersRank(c.PolicyOf(i + 1), c.Capacity(i + 1), s.queues[i + 1], p, Weight(i + 1));
    }
    if i == 0 {} else if i == 1 {} else {}
    OthersFall(c, s, t, i);
  }

  /** A step of stage i that moves no frame between hand-offs, and lowers the stage's own rank. */
  lemma StageAlone(c: Config, s: State, t: State, i: nat)
    requires c.Valid() && StageOnly(s, t, i)
    requires forall k :: 0 <= k < 4 ==> t.queues[k].items == s.queues[k].items
    requires StageRank(Block, 0, Queue([], true), t.stages[i], 0) < StageRank(Block, 0, Queue([], true), s.stages[i], 0)
    requires !t.stages[i].Handing? && !s.stages[i].Handing? && (t.stages[i].Body? ==> s.stages[i].CheckAbort?)
    ensures Rank(c, t) < Rank(c, s)
  {
    hide Config.Capacity, Rank, CaptureRank, PushRank;
    OthersFall(c, s, t, i);
  }

  lemma StageHandsLowersRank(c: Config, s: State, i: nat, f: Frame)
    requires c.Valid() && Shaped(s) && i < SINK && s.stages[i] == Body(f)
    ensures Rank(c, SetStage(s, i, Handing(Checking(f)))) < Rank(c, s)
  {
    hide Config.Capacity, Rank, CaptureRank;
    OthersFall(c, s, SetStage(s, i, Handing(Checking(f))), i);
  }

  lemma StageAbortLowersRank(c: Config, s: State, i: nat, k: nat)
    requires c.Valid() && Control(s) && i < 4 && s.stages[i] == Stage.Aborting(k) && k <= 6
    ensures Shaped(AbortStep(s, k))
    ensures Rank(c, SetStage(AbortStep(s, k), i, if k < 6 then Stage.Aborting(k + 1) else CloseOutput)) < Rank(c, s)
  {
    hide Config.Capacity, Rank, CaptureControl, ClosedFor, AbortStep;
    assert StageControl(s, i);
    AbortAdvances(s, k);
    StageAlone(c, s, SetStage(AbortStep(s, k), i, if k < 6 then Stage.Aborting(k + 1) else CloseOutput), i);
  }

  lemma StageExitLowersRank(c: Config, s: State, i: nat)
    requires c.Valid() && Control(s) && i < 4 && s.stages[i] == CloseOutput
    ensures i < SINK ==> Shaped(CloseQueue(s, i + 1))
    ensures Rank(c, SetStage(if i < SINK then CloseQueue(s, i + 1) else s, i, Stage.Exited)) < Rank(c, s)
  {
    hide Config.Capacity, Rank, CaptureControl, StageControl, ClosedFor, CloseQueue;
    if i < SINK {
      CloseOnlyCloses(s, i + 1);
    }
    StageAlone(c, s, SetStage(if i < SINK then CloseQueue(s, i + 1) else s, i, Stage.Exited), i);
  }

  lemma StageWorkLowersRank(c: Config, s: State, i: nat, f: Frame, o: Outcome)
    requires c.Valid() && Shaped(s) && i < 4 && s.stages[i] == Body(f)
    ensures Shaped(StageBody(s, i, f, o)) && Rank(c, StageBody(s, i, f, o)) < Rank(c, s)
  {
    hide Config.Capacity, Rank, RankOf;
    if o.Throws? || i == SINK {
      StageAlone(c, s, StageBody(s, i, f, o), i);
    } else {
      StageHandsLowersRank(c, s, i, f);
    }
  }

  /** Moving on, within the stage, to something cheaper. */
  lemma StageGoesTo(c: Config, s: State, i: nat, g: Stage)
    requires c.Valid() && Shaped(s) && i < 4
    requires g.Release? || g.Pop? || g == Stage.Aborting(0) || g.Body?
    requires StageRank(Block, 0, Queue([], true), g, 0) < StageRank(Block, 0, Queue([], true), s.stages[i], 0)
    requires !s.stages[i].Handing? && (g.Body? ==> s.stages[i].CheckAbort?)
    ensures Rank(c, SetStage(s, i, g)) < Rank(c, s)
  {
    hide Config.Capacity, Rank, RankOf, PushRank, StageRank;
    StageAlone(c, s, SetStage(s, i, g), i);
  }

  lemma RankIgnoresTally(c: Config, s: State, free: seq<nat>, tally: Tally)
    requires c.Valid() && Shaped(s) && tally.nextSeq == s.tally.nextSeq
    ensures Rank(c, s.(free := free, tally := tally)) == Rank(c, s)
  {
    hide Config.Capacity, StageRank, PushRank;
  }

  /** Every step of a stage lowers the rank, winding down or not. */
  lemma StageLowersRank(c: Config, s: State, i: nat, o: Outcome)
    requires c.Valid() && Control(s) && i < 4 && Shaped(s) && StageEnabled(c, s, i)
    ensures Shaped(StageStep(c, s, i, o)) && Rank(c, StageStep(c, s, i, o)) < Rank(c, s)
  {
    hide Config.Capacity, CanPush, Rank, RankOf, PushRank, StagePop, StagePush, StageBody, CloseQueue,
      AbortStep, StageControl, CaptureControl;
    match s.stages[i]
    case Pop => StagePopLowersRank(c, s, i);
    case Handing(p) => StagePushLowersRank(c, s, i, p);
    case Aborting(k) => StageAbortLowersRank(c, s, i, k);
    case CloseOutput => StageExitLowersRank(c, s, i);
    case CheckAbort(f) => StageGoesTo(c, s, i, if s.signals.aborted then Release(f.id, false) else Body(f));
    case Body(f) => StageWorkLowersRank(c, s, i, f, o);
    case CountDone(f) =>
      var n := s.tally.(completed := s.tally.completed + 1);
      RankIgnoresTally(c, s, s.free, n);
      StageGoesTo(c, s.(tally := n), i, Release(f.id, false));
    case Release(id, thrown) =>
      RankIgnoresTally(c, s, s.free + [id], s.tally);
      StageGoesTo(c, s.(free := s.free + [id]), i, if thrown then Stage.Aborting(0) else Pop);
    case CountDrop(result) =>
      RankIgnoresTally(c, s, s.free, CountIf(s.tally, IsDrop(result)));
      StageGoesTo(c, s.(tally := CountIf(s.tally, IsDrop(result))), i, Pop);
  }

  // ---------- one step of capture, or of whoever requests the stop ----------

  lemma CapturePushLowersRank(c: Config, s: State, p: Push)
    requires c.Valid() && Shaped(s) && s.capture == Pushing(p)
    requires p.Releasing? || p.Returned? || CanPush(c.policy, c.Capacity(0), s.queues[0], p)
    ensures Shaped(CapturePush(c, s, p)) && Rank(c, CapturePush(c, s, p)) < Rank(c, s)
  {
    hide Config.Capacity, Rank, RankOf, SignalRank, PushStep, CanPush, PushRank, Rounds;
    var t := CapturePush(c, s, p);
    assert Rounds(c, t) == Rounds(c, s) by {
      SameRounds(c, s, t);
    }
    if p.Releasing? || p.Returned? {
      LastPushRanks(c.policy, c.Capacity(0), s.queues[0], Weight(0));
    } else {
      PushLowersRank(c.policy, c.Capacity(0), s.queues[0], p, Weight(0));
    }
    StagesFall(c, s, t);
  }

  lemma SameRounds(c: Config, s: State, t: State)
    requires t.signals == s.signals && t.tally.nextSeq == s.tally.nextSeq
    ensures Rounds(c, t) == Rounds(c, s)
  {
  }

  lemma CaptureReadLowersRank(c: Config, s: State, id: nat, o: Outcome)
    requires c.Valid() && Shaped(s) && s.capture == Reading(id)
    ensures Rank(c, CaptureRead(s, id, o)) < Rank(c, s)
  {
    hide Config.Capacity, Rank, RankOf;
    if o.Returns? {} else if o.Ends? {} else {}
    StagesFall(c, s, CaptureRead(s, id, o));
  }

  lemma CaptureAbortLowersRank(c: Config, s: State, k: nat)
    requires c.Valid() && Control(s) && s.capture == Capture.Aborting(k)
    ensures Shaped(AbortStep(s, k))
    ensures Rank(c, AbortStep(s, k).(capture := if k < 6 then Capture.Aborting(k + 1) else CloseIngress)) < Rank(c, s)
  {
    hide Config.Capacity, Rank, RankOf, StageControl, ClosedFor, AbortStep;
    AbortAdvances(s, k);
    StagesFall(c, s, AbortStep(s, k).(capture := if k < 6 then Capture.Aborting(k + 1) else CloseIngress));
  }

  lemma CaptureExitLowersRank(c: Config, s: State)
    requires c.Valid() && Control(s) && s.capture == CloseIngress
    ensures Shaped(CloseQueue(s, 0)) && Rank(c, CloseQueue(s, 0).(capture := Capture.Exited)) < Rank(c, s)
  {
    hide Config.Capacity, Rank, RankOf, StageControl, ClosedFor, CloseQueue;
    CloseOnlyCloses(s, 0);
    StagesFall(c, s, CloseQueue(s, 0).(capture := Capture.Exited));
  }

  /** A step of capture that only changes its own program counter, the free list and the drop counter. */
  lemma CaptureGoesTo(c: Config, s: State, t: State)
    requires c.Valid() && Shaped(s) && t.stages == s.stages && t.queues == s.queues && t.signals == s.signals
    requires t.tally.nextSeq == s.tally.nextSeq && CaptureRank(c, t) < CaptureRank(c, s)
    ensures Rank(c, t) < Rank(c, s)
  {
    hide Config.Capacity, Rank, RankOf, CaptureRank;
    StagesFall(c, s, t);
  }

  /** Every step of capture lowers the rank, but for the one that starts another round of its loop. */
  lemma CaptureLowersRank(c: Config, s: State, o: Outcome)
    requires c.Valid() && Control(s) && Shaped(s) && CaptureEnabled(c, s, o)
    requires WindingDown(c, s) || !s.capture.CheckStop?
    ensures Shaped(CaptureStep(c, s, o)) && Rank(c, CaptureStep(c, s, o)) < Rank(c, s)
  {
    hide Config.Capacity, CanPush, Rank, RankOf, PushRank, CapturePush, CloseQueue, AbortStep,
      StageControl, ClosedFor;
    var t := CaptureStep(c, s, o);
    match s.capture
    case Pushing(p) => CapturePushLowersRank(c, s, p);
    case Reading(id) => CaptureReadLowersRank(c, s, id, o);
    case Aborting(k) => CaptureAbortLowersRank(c, s, k);
    case CloseIngress => CaptureExitLowersRank(c, s);
    case CheckStop => CaptureGoesTo(c, s, t);
    case CheckAborted => CaptureGoesTo(c, s, t);
    case Acquire => CaptureGoesTo(c, s, t);
    case Dropped(_, _) => CaptureGoesTo(c, s, t);
    case CountDrop(_) => CaptureGoesTo(c, s, t);
  }

  lemma RequestLowersRank(c: Config, s: State)
    requires c.Valid() && Shaped(s) && !s.signals.stop
    ensures Rank(c, s.(signals := s.signals.(stop := true, callbackPending := true))) < Rank(c, s)
  {
    hide Config.Capacity, Rank, RankOf, QueueRank, PushRank;
    var t := s.(signals := s.signals.(stop := true, callbackPending := true));
    CaptureRankFalls(c, s, t);
    assert QueueRank(t) == QueueRank(s) by { SameQueueRank(s, t); }
    StagesFall(c, s, t);
  }

  lemma SameQueueRank(s: State, t: State)
    requires Shaped(s) && Shaped(t)
    requires forall k :: 0 <= k < 4 ==> t.queues[k].items == s.queues[k].items
    ensures QueueRank(t) == QueueRank(s)
  {
  }

  lemma CallbackLowersRank(c: Config, s: State)
    requires c.Valid() && Shaped(s) && s.signals.callbackPending
    ensures Shaped(CloseQueue(s, 0))
    ensures Rank(c, CloseQueue(s, 0).(signals := s.signals.(callbackPending := false))) < Rank(c, s)
  {
    hide Config.Capacity, Rank, RankOf, QueueRank, PushRank, CloseQueue;
    CloseOnlyCloses(s, 0);
    var t := CloseQueue(s, 0).(signals := s.signals.(callbackPending := false));
    CaptureRankFalls(c, s, t);
    SameQueueRank(s, t);
    StagesFall(c, s, t);
  }

  // ---------- every run ends ----------

  /**
    Every step of anybody lowers the rank, as soon as the pipeline is winding down; before that, only
    a new round of the capture loop does not.
   */
  lemma StepLowersRank(c: Config, s: State, e: Event)
    requires c.Valid() && Control(s) && Shaped(s) && Enabled(c, s, e)
    requires WindingDown(c, s) || !(e.CaptureMoves? && s.capture.CheckStop?)
    ensures Shaped(Step(c, s, e)) && Rank(c, Step(c, s, e)) < Rank(c, s)
  {
    hide Config.Capacity, Control, Rank, WindingDown, CaptureStep, StageStep, CaptureEnabled,
      StageEnabled, CloseQueue;
    match e
    case CaptureMoves(o) => CaptureLowersRank(c, s, o);
    case StageMoves(i, o) => StageLowersRank(c, s, i, o);
    case RequestStop => RequestLowersRank(c, s);
    case RunCallback => CallbackLowersRank(c, s);
  }

  /** Winding down can not be called off. */
  lemma StepKeepsWindingDown(c: Config, s: State, e: Event)
    requires c.Valid() && Control(s) && Shaped(s) && Enabled(c, s, e) && WindingDown(c, s)
    ensures WindingDown(c, Step(c, s, e))
  {
    hide Config.Capacity, CanPush, PushStep, ClosedFor;
    match e
    case CaptureMoves(o) =>
      match s.capture {
        case Aborting(k) => AbortAdvances(s, k);
        case _ =>
      }
    case StageMoves(i, o) =>
      assert StageControl(s, i);
      match s.stages[i] {
        case Aborting(k) => AbortAdvances(s, k);
        case _ =>
      }
    case RequestStop =>
    case RunCallback =>
  }

  /** No schedule of a pipeline that is winding down is longer than the rank it starts with. */
  lemma {:induction false} SchedulesAreBounded(c: Config, s: State, es: seq<Event>)
    requires c.Valid() && Control(s) && Shaped(s) && WindingDown(c, s) && Follows(c, s, es)
    ensures Shaped(Run(c, s, es)) && Control(Run(c, s, es)) && WindingDown(c, Run(c, s, es))
    ensures |es| + Rank(c, Run(c, s, es)) <= Rank(c, s)
    decreases |es|
  {
    hide Control, WindingDown, Rank, Step, Enabled, Config.Capacity;
    if es != [] {
      StepKeepsControl(c, s, es[0]);
      StepKeepsWindingDown(c, s, es[0]);
      StepLowersRank(c, s, es[0]);
      SchedulesAreBounded(c, Step(c, s, es[0]), es[1..]);
    }
  }

  /** With a frame limit every run is over, whatever the schedule, after 100 steps per frame. */
  lemma LimitedRunsAreBounded(c: Config, es: seq<Event>)
    requires c.Valid() && c.maxFrames > 0 && Follows(c, Init(c), es)
    ensures |es| <= 100 * c.maxFrames + 21
  {
    hide Control, Step, Enabled, Config.Capacity, Config.Frames;
    InitControl(c);
    SchedulesAreBounded(c, Init(c), es);
  }

  lemma MoverHasEvent(c: Config, s: State) returns (e: Event)
    requires c.Valid() && Shaped(s) && SomebodyCanMove(c, s)
    ensures Enabled(c, s, e)
  {
    hide Config.Capacity, CaptureEnabled, StageEnabled;
    if CaptureEnabled(c, s, Returns) {
      e := CaptureMoves(Returns);
    } else {
      var i :| 0 <= i < 4 && StageEnabled(c, s, i);
      e := StageMoves(i, Returns);
    }
  }

  /**
    From every state of a pipeline that is winding down, the threads get to the end by just
    carrying on: some schedule leads to all five having exited, and by `SchedulesAreBounded` no
    schedule can avoid it.
   */
  lemma {:induction false} EveryRunEnds(c: Config, s: State) returns (es: seq<Event>)
    requires c.Valid() && FramesInv(c, s) && Control(s) && Shaped(s) && WindingDown(c, s)
    ensures Follows(c, s, es) && Shaped(Run(c, s, es)) && AllExited(Run(c, s, es))
    decreases Rank(c, s)
  {
    hide Control, FramesInv, WindingDown, Rank, Step, Enabled, SomebodyCanMove, Config.Capacity,
      Config.Frames;
    if AllExited(s) {
      es := [];
    } else {
      NoDeadlock(c, s);
      var e := MoverHasEvent(c, s);
      StepKeepsFrames(c, s, e);
      StepKeepsControl(c, s, e);
      StepKeepsWindingDown(c, s, e);
      StepLowersRank(c, s, e);
      var rest := EveryRunEnds(c, Step(c, s, e));
      es := [e] + rest;
      assert es[1..] == rest;
    }
  }

  // ---------- after a stage failure ----------

  /** A new round of the capture loop raises the rank by less than a hundred. */
  lemma NewRoundRaisesLittle(c: Config, s: State, o: Outcome)
    requires c.Valid() && Shaped(s) && s.capture.CheckStop? && !WindingDown(c, s)
    ensures Shaped(CaptureStep(c, s, o)) && Rank(c, CaptureStep(c, s, o)) == Rank(c, s) + 99
  {
    hide Config.Capacity, StageRank, PushRank;
  }

  lemma StepRaisesLittle(c: Config, s: State, e: Event)
    requires c.Valid() && Control(s) && Shaped(s) && Enabled(c, s, e)
    ensures Shaped(Step(c, s, e)) && Rank(c, Step(c, s, e)) <= Rank(c, s) + 99
  {
    hide Config.Capacity, Control, Rank, WindingDown, CaptureStep, StageStep, CaptureEnabled, StageEnabled;
    if e.CaptureMoves? && s.capture.CheckStop? && !WindingDown(c, s) {
      NewRoundRaisesLittle(c, s, e.o);
    } else {
      StepLowersRank(c, s, e);
    }
  }

  /** How often a schedule lets stage i move. */
  function MovesOf(es: seq<Event>, i: nat): nat {
    if es == [] then 0 else (if es[0].StageMoves? && es[0].i == i then 1 else 0) + MovesOf(es[1..], i)
  }

  /** How many steps of its own a stage that has caught a failure takes until the abort flag is set. */
  function StepsToAbort(g: Stage): nat {
    match g
    case Release(_, thrown) => if thrown then 3 else 0
    case Aborting(k) => if k == 0 then 2 else if k == 1 then 1 else 0
    case _ => 0
  }

  /** The stage still has to set the abort flag, or somebody has. */
  ghost predicate Failing(s: State, i: nat)
    requires Shaped(s) && i < 4
  {
    s.signals.aborted || StepsToAbort(s.stages[i]) > 0
  }

  /** A failing stage gets one step closer with each of its own steps, and no further away with those of others. */
  lemma StepKeepsFailing(c: Config, s: State, e: Event, i: nat)
    requires c.Valid() && Shaped(s) && Enabled(c, s, e) && i < 4 && Failing(s, i)
    ensures var t := Step(c, s, e);
      && Shaped(t) && Failing(t, i)
      && (t.signals.aborted
          || StepsToAbort(t.stages[i]) + (if e.StageMoves? && e.i == i then 1 else 0) == StepsToAbort(s.stages[i]))
  {
    hide Config.Capacity, CanPush, PushStep, CloseQueue;
    match e
    case CaptureMoves(o) => CaptureKeepsFailing(c, s, o);
    case StageMoves(j, o) =>
      OneStageMoves(c, s, j, o);
      if j == i {
        FailingStageMoves(c, s, i, o);
      } else {
        AbortedStays(c, s, j, o);
      }
    case RequestStop =>
    case RunCallback => CloseOnlyCloses(s, 0);
  }

  lemma CaptureKeepsFailing(c: Config, s: State, o: Outcome)
    requires c.Valid() && Shaped(s) && CaptureEnabled(c, s, o)
    ensures var t := CaptureStep(c, s, o);
      Shaped(t) && t.stages == s.stages && (s.signals.aborted ==> t.signals.aborted)
  {
    hide Config.Capacity, CanPush, PushStep, AbortStep, CloseQueue;
    match s.capture
    case Pushing(p) => if p.Releasing? {} else if p.Returned? {} else {}
    case Reading(_) => if o.Returns? {} else if o.Ends? {} else {}
    case Aborting(k) => AbortOnlySignals(s, k);
    case CloseIngress => CloseOnlyCloses(s, 0);
    case _ =>
  }

  lemma AbortedStays(c: Config, s: State, j: nat, o: Outcome)
    requires c.Valid() && Shaped(s) && j < 4 && StageEnabled(c, s, j)
    ensures s.signals.aborted ==> StageStep(c, s, j, o).signals.aborted
  {
    hide Config.Capacity, CanPush, PushStep, AbortStep, CloseQueue;
    match s.stages[j]
    case Handing(p) => if p.Releasing? {} else if p.Returned? {} else {}
    case Body(_) => if o.Throws? {} else if j == SINK {} else {}
    case Pop => if |s.queues[j].items| > 0 {} else {}
    case Aborting(k) => AbortOnlySignals(s, k);
    case CloseOutput =>
      if j < SINK {
        CloseOnlyCloses(s, j + 1);
      }
    case _ =>
  }

  lemma FailingStageMoves(c: Config, s: State, i: nat, o: Outcome)
    requires c.Valid() && Shaped(s) && i < 4 && StageEnabled(c, s, i) && Failing(s, i)
    ensures var t := StageStep(c, s, i, o);
      && Shaped(t) && (t.signals.aborted || StepsToAbort(t.stages[i]) + 1 == StepsToAbort(s.stages[i]))
  {
    hide Config.Capacity, CanPush, PushStep, AbortStep, CloseQueue;
    AbortedStays(c, s, i, o);
    OneStageMoves(c, s, i, o);
    if s.stages[i].Aborting? {
      AbortOnlySignals(s, s.stages[i].k);
    }
  }

  /** Once a failing stage has taken its steps, at most three, the pipeline is winding down. */
  lemma {:induction false} FailingStageWindsDown(c: Config, s: State, es: seq<Event>, i: nat)
    requires c.Valid() && Control(s) && Shaped(s) && Follows(c, s, es) && i < 4 && Failing(s, i)
    requires MovesOf(es, i) >= StepsToAbort(s.stages[i])
    ensures Shaped(Run(c, s, es)) && Control(Run(c, s, es)) && WindingDown(c, Run(c, s, es))
    ensures Rank(c, Run(c, s, es)) <= Rank(c, s) + 99 * |es|
    decreases |es|
  {
    hide Control, Rank, Step, Enabled, Config.Capacity;
    if es != [] {
      StepKeepsControl(c, s, es[0]);
      StepRaisesLittle(c, s, es[0]);
      if s.signals.aborted {
        SchedulesAreBounded(c, s, es);
      } else {
        StepKeepsFailing(c, s, es[0], i);
        if Step(c, s, es[0]).signals.aborted {
          SchedulesAreBounded(c, Step(c, s, es[0]), es[1..]);
        } else {
          FailingStageWindsDown(c, Step(c, s, es[0]), es[1..], i);
        }
      }
    }
  }

  /**
    After a stage failure: however long a schedule lets the failing stage wait for its three steps,
    from then on it is bounded, by what it started with and how long it let the stage wait.
   */
  lemma FailureEndsTheRun(c: Config, s: State, es: seq<Event>, more: seq<Event>, i: nat)
    requires c.Valid() && Control(s) && Shaped(s) && Follows(c, s, es) && i < 4 && Failing(s, i)
    requires MovesOf(es, i) >= StepsToAbort(s.stages[i]) && Follows(c, Run(c, s, es), more)
    ensures |more| <= Rank(c, s) + 99 * |es|
  {
    hide Control, WindingDown, Rank, Step, Enabled, Config.Capacity;
    FailingStageWindsDown(c, s, es, i);
    SchedulesAreBounded(c, Run(c, s, es), more);
  }
}
