/**
  What gets through: the newest frame admitted to the ingress is never the one that a later drop
  takes, so in a failure-free run it is the last one the sinks see.
 */
module PipelineDelivery {
  import opened Common
  import opened HandOff
  import opened Pipeline
  import opened PipelineFrames
  import opened PipelineShutdown
  import opened PipelineAccounting

  // ---------- the newest admitted frame stays in the line, or reaches the sinks ----------

  /** How much of the chain lies in front of capture's own hand. */
  ghost function Front(s: State): int
    requires Shaped(s)
  {
    |Chain(s)| - |CaptureHand(s.capture)|
  }

  /** The newest admitted frame is the last of the chain, but for the frame in capture's hand. */
  ghost predicate Newest(s: State)
    requires Shaped(s)
  {
    LastOf(s.history.admitted) == if Front(s) <= 0 then None else Some(Chain(s)[Front(s) - 1])
  }

  lemma LosesEarlier(s: seq<nat>, a: seq<nat>, x: nat, b: seq<nat>, bound: nat, j: nat)
    requires Increasing(s, bound) && s == a + [x] + b && j < |s| && x < s[j]
    ensures 1 <= j && (a + b)[j - 1] == s[j]
  {
    assert s[|a|] == x;
  }

  lemma LosesLast(s: seq<nat>, a: seq<nat>, x: nat, b: seq<nat>, bound: nat)
    requires Increasing(s, bound) && s == a + [x] + b && s[|s| - 1] == x
    ensures b == [] && a + b == s[..|s| - 1]
  {
    assert s[|a|] == x;
  }

  /** What taking a frame out of the line does to the chain. */
  lemma ChainWithout(s: State, f: Frame, t: State) returns (a: seq<nat>, b: seq<nat>)
    requires Shaped(s) && Shaped(t) && Without(Line(s), f, Line(t))
    requires t.history.delivered == s.history.delivered
    ensures Chain(s) == a + [f.seqNo] + b && Chain(t) == a + b
  {
    hide Line;
    var x, y :| Line(s) == x + [f] + y && Line(t) == x + y;
    a, b := s.history.delivered + Numbers(x), Numbers(y);
    assert Chain(s) == s.history.delivered + (Numbers(x) + [f.seqNo] + Numbers(y));
    assert Chain(t) == s.history.delivered + (Numbers(x) + Numbers(y));
  }

  /** Two neighbouring segments of the line, as part of the chain. */
  lemma ChainPair(s: State, k: nat) returns (before: seq<nat>, after: seq<nat>)
    requires Shaped(s) && k + 1 < 9
    ensures Chain(s) == before + Numbers(Segment(s, k) + Segment(s, k + 1)) + after
    ensures |after| >= if k == 7 then 0 else |CaptureHand(s.capture)|
    ensures k == 7 ==> after == []
  {
    hide Segment, CaptureHand;
    var ss := Segments(s);
    FlattenPair(ss, k, ss[k], ss[k + 1]);
    assert ss[k := ss[k]][k + 1 := ss[k + 1]] == ss;
    before, after := s.history.delivered + Numbers(Flatten(ss[..k])), Numbers(Flatten(ss[k + 2..]));
    assert Chain(s) == before + Numbers(Segment(s, k) + Segment(s, k + 1)) + after;
    LastSegment(s, k);
  }

  lemma LastSegment(s: State, k: nat)
    requires Shaped(s) && k < 8
    ensures |Flatten(Segments(s)[k + 2..])| >= if k == 7 then 0 else |CaptureHand(s.capture)|
    ensures k == 7 ==> Flatten(Segments(s)[k + 2..]) == []
  {
    hide CaptureHand, Hand;
    if k < 7 {
      var rest := Segments(s)[k + 2..];
      FlattenConcat(rest[..|rest| - 1], [rest[|rest| - 1]]);
      assert rest == rest[..|rest| - 1] + [rest[|rest| - 1]];
      assert Flatten([rest[|rest| - 1]]) == CaptureHand(s.capture) + Flatten([]);
    }
  }

  /** The frame a stage displaces is older than the one it is handing on, so it is not the newest. */
  lemma DisplacedIsOld(s: State, i: nat, f: Frame)
    requires Shaped(s) && InOrder(s) && i < SINK && Hand(s.stages[i]) == [f] && |s.queues[i + 1].items| > 0
    ensures 0 < Front(s) && s.queues[i + 1].items[0].seqNo < Chain(s)[Front(s) - 1]
  {
    hide Line, CaptureHand, Hand;
    var items := s.queues[i + 1].items;
    var before, after := ChainPair(s, 2 * (3 - i) - 1);
    assert Segment(s, 2 * (3 - i) - 1) == items && Segment(s, 2 * (3 - i)) == [f];
    assert Chain(s)[|before|] == items[0].seqNo;
    assert |Chain(s)| == |before| + |items| + 1 + |after|;
  }

  lemma CaptureHandIsLast(s: State, f: Frame)
    requires Shaped(s) && CaptureHand(s.capture) == [f]
    ensures |Chain(s)| > 0 && Chain(s)[|Chain(s)| - 1] == f.seqNo
  {
    hide Line, CaptureHand, Hand;
    var before, after := ChainPair(s, 7);
    assert Segment(s, 8) == [f];
    assert (Segment(s, 7) + [f])[|Segment(s, 7)|] == f;
    assert Chain(s) == before + Numbers(Segment(s, 7) + [f]);
  }

  lemma IngressIsOlder(s: State, f: Frame)
    requires Shaped(s) && InOrder(s) && CaptureHand(s.capture) == [f] && |s.queues[0].items| > 0
    ensures s.queues[0].items[0].seqNo < f.seqNo
  {
    hide Line, CaptureHand, Hand;
    var items := s.queues[0].items;
    var before, after := ChainPair(s, 7);
    assert Segment(s, 8) == [f] && Segment(s, 7) == items;
    assert Chain(s)[|before|] == items[0].seqNo;
    assert Chain(s)[|before| + |items|] == f.seqNo;
  }

  // ---------- and every step keeps it so ----------

  lemma NewestKept(s: State, t: State)
    requires Shaped(s) && Shaped(t) && Newest(s) && Chain(t) == Chain(s)
    requires CaptureHand(t.capture) == CaptureHand(s.capture) && t.history.admitted == s.history.admitted
    ensures Newest(t)
  {
    hide Chain, CaptureHand;
  }

  lemma NewestDespiteLoss(s: State, f: Frame, t: State)
    requires Shaped(s) && Shaped(t) && Newest(s) && InOrder(s) && Affects(Line(s), Loses(f), Line(t))
    requires t.history.delivered == s.history.delivered
    requires CaptureHand(t.capture) == CaptureHand(s.capture) && t.history.admitted == s.history.admitted
    requires 0 < Front(s) && f.seqNo < Chain(s)[Front(s) - 1]
    ensures Newest(t)
  {
    var a, b := ChainWithout(s, f, t);
    hide Chain, CaptureHand, Line;
    LosesEarlier(Chain(s), a, f.seqNo, b, s.tally.nextSeq, Front(s) - 1);
  }

  lemma NewestWhenReading(s: State, f: Frame, t: State)
    requires Shaped(s) && Shaped(t) && Newest(s) && Affects(Line(s), Enters(f), Line(t))
    requires t.history == s.history && CaptureHand(s.capture) == [] && CaptureHand(t.capture) == [f]
    ensures Newest(t)
  {
    hide Line, CaptureHand;
    assert Chain(t) == Chain(s) + [f.seqNo];
  }

  /** The four ways in which a step of a push may go. */
  lemma PushCases(policy: Policy, capacity: nat, q: Queue, p: Push)
    requires CanPush(policy, capacity, q, p)
    ensures var (_, next) := PushStep(policy, capacity, q, p); var x := EffectOfPush(policy, capacity, q, p);
      && InHand(p) == [p.f]
      && (InHand(next) == [p.f] ==> x.Keeps? && !Inserts(p, next))
      && (InHand(next) == [p.f] || InHand(next) == [])
      && (InHand(next) == [] && Inserts(p, next) ==> x.Keeps? || (|q.items| > 0 && x == Loses(q.items[0])))
      && (InHand(next) == [] && !Inserts(p, next) ==> x == Loses(p.f))
      && (!q.closed && !policy.DropNewest? && !x.Keeps? ==> |q.items| > 0 && x == Loses(q.items[0]))
  {
  }

  lemma NewestWhenInserting(s: State, x: Effect, f: Frame, t: State)
    requires Shaped(s) && Shaped(t) && InOrder(s) && Affects(Line(s), x, Line(t))
    requires x.Keeps? || (|s.queues[0].items| > 0 && x == Loses(s.queues[0].items[0]))
    requires t.history.delivered == s.history.delivered && LastOf(t.history.admitted) == Some(f.seqNo)
    requires CaptureHand(s.capture) == [f] && CaptureHand(t.capture) == []
    ensures Newest(t)
  {
    hide Line, CaptureHand;
    CaptureHandIsLast(s, f);
    if x.Loses? {
      IngressIsOlder(s, f);
      var a, b := ChainWithout(s, x.f, t);
      LosesEarlier(Chain(s), a, x.f.seqNo, b, s.tally.nextSeq, |Chain(s)| - 1);
    } else {
      assert Chain(t) == Chain(s);
    }
  }

  lemma NewestWhenRefused(s: State, f: Frame, t: State)
    requires Shaped(s) && Shaped(t) && InOrder(s) && Newest(s) && Affects(Line(s), Loses(f), Line(t))
    requires t.history == s.history && CaptureHand(s.capture) == [f] && CaptureHand(t.capture) == []
    ensures Newest(t)
  {
    hide Line, CaptureHand;
    CaptureHandIsLast(s, f);
    var a, b := ChainWithout(s, f, t);
    LosesLast(Chain(s), a, f.seqNo, b, s.tally.nextSeq);
  }

  lemma CapturePushKeepsNewest(c: Config, s: State, p: Push)
    requires c.Valid() && Shaped(s) && WithinCapacity(c, s) && InOrder(s) && Newest(s)
    requires s.capture == Pushing(p)
    requires p.Releasing? || p.Returned? || CanPush(c.policy, c.Capacity(0), s.queues[0], p)
    ensures Shaped(CapturePush(c, s, p)) && Newest(CapturePush(c, s, p))
  {
    hide Config.Capacity, EffectOfPush, CanPush, PushStep, Line, Affects, WithinCapacity, InOrder,
      Newest, Inserts, Chain, Segments;
    var t := CapturePush(c, s, p);
    CapturePushingAffectsLine(c, s, p);
    if p.Releasing? || p.Returned? {
      QuietPushKeepsChain(c.policy, c.Capacity(0), s.queues[0], s, p, t);
      NewestKept(s, t);
    } else {
      PushCases(c.policy, c.Capacity(0), s.queues[0], p);
      var x := EffectOfPush(c.policy, c.Capacity(0), s.queues[0], p);
      var next := PushStep(c.policy, c.Capacity(0), s.queues[0], p).1;
      if InHand(next) == [p.f] {
        KeepsChain(s, t, x);
        NewestKept(s, t);
      } else if Inserts(p, next) {
        NewestWhenInserting(s, x, p.f, t);
      } else {
        NewestWhenRefused(s, p.f, t);
      }
    }
  }

  lemma KeepsChain(s: State, t: State, x: Effect)
    requires Shaped(s) && Shaped(t) && Affects(Line(s), x, Line(t)) && (x.Keeps? || x.Sinks?)
    requires t.history.delivered == if x.Sinks? then s.history.delivered + [x.f.seqNo] else s.history.delivered
    ensures Chain(t) == Chain(s)
  {
    hide Line;
    if x.Sinks? {
      assert Numbers(Line(s)) == [x.f.seqNo] + Numbers(Line(t));
    }
  }

  lemma QuietPushKeepsChain(policy: Policy, capacity: nat, q: Queue, s: State, p: Push, t: State)
    requires Shaped(s) && Shaped(t) && (p.Releasing? || p.Returned?)
    requires Affects(Line(s), EffectOfPush(policy, capacity, q, p), Line(t))
    requires t.history.delivered == s.history.delivered
    ensures Chain(t) == Chain(s)
  {
    hide Line;
  }

  lemma CaptureKeepsNewest(c: Config, s: State, o: Outcome)
    requires c.Valid() && Shaped(s) && WithinCapacity(c, s) && InOrder(s) && Newest(s)
    requires CaptureEnabled(c, s, o)
    ensures Shaped(CaptureStep(c, s, o)) && Newest(CaptureStep(c, s, o))
  {
    hide Config.Capacity, EffectOfPush, CanPush, CapturePush, Line, Affects, WithinCapacity, InOrder,
      Newest, Chain, AbortStep, CloseQueue;
    var t := CaptureStep(c, s, o);
    CaptureAffectsLine(c, s, o);
    match s.capture
    case Pushing(p) => CapturePushKeepsNewest(c, s, p);
    case Reading(id) =>
      if o.Returns? {
        NewestWhenReading(s, Frame(id, s.tally.nextSeq), t);
      } else {
        KeepsChain(s, t, Keeps);
        NewestKept(s, t);
      }
    case Aborting(k) => AbortOnlySignals(s, k); KeepsChain(s, t, Keeps); NewestKept(s, t);
    case CloseIngress => CloseOnlyCloses(s, 0); KeepsChain(s, t, Keeps); NewestKept(s, t);
    case Acquire => KeepsChain(s, t, Keeps); NewestKept(s, t);
    case CheckStop => KeepsChain(s, t, Keeps); NewestKept(s, t);
    case CheckAborted => KeepsChain(s, t, Keeps); NewestKept(s, t);
    case Dropped(_, _) => KeepsChain(s, t, Keeps); NewestKept(s, t);
    case CountDrop(_) => KeepsChain(s, t, Keeps); NewestKept(s, t);
  }

  lemma StagePushKeepsNewest(c: Config, s: State, i: nat, p: Push)
    requires c.Valid() && Shaped(s) && WithinCapacity(c, s) && InOrder(s) && Newest(s)
    requires i < SINK && s.stages[i] == Handing(p) && !s.queues[i + 1].closed
    requires p.Releasing? || p.Returned? || CanPush(c.PolicyOf(i + 1), c.Capacity(i + 1), s.queues[i + 1], p)
    ensures Shaped(StagePush(c, s, i, p)) && Newest(StagePush(c, s, i, p))
  {
    hide Config.Capacity, EffectOfPush, CanPush, PushStep, Line, Affects, WithinCapacity, InOrder,
      Newest, Chain, Front, Inserts;
    var t := StagePush(c, s, i, p);
    StageHandingAffectsLine(c, s, i, p);
    PushKeepsHistory(c, s, i, p);
    StagePushClosesNothing(c, s, i, p);
    var x := EffectOfPush(c.PolicyOf(i + 1), c.Capacity(i + 1), s.queues[i + 1], p);
    if p.Releasing? || p.Returned? {
      QuietPushKeepsChain(c.PolicyOf(i + 1), c.Capacity(i + 1), s.queues[i + 1], s, p, t);
      NewestKept(s, t);
    } else {
      PushCases(c.PolicyOf(i + 1), c.Capacity(i + 1), s.queues[i + 1], p);
      if x.Keeps? {
        KeepsChain(s, t, x);
        NewestKept(s, t);
      } else {
        DisplacedIsOld(s, i, p.f);
        NewestDespiteLoss(s, x.f, t);
      }
    }
  }

  lemma StageKeepsNewest(c: Config, s: State, i: nat, o: Outcome)
    requires c.Valid() && Control(s) && Shaped(s) && FailureControl(s) && WithinCapacity(c, s)
    requires InOrder(s) && Newest(s)
    requires i < 4 && StageEnabled(c, s, i) && !StageStep(c, s, i, o).history.failed
    ensures Shaped(StageStep(c, s, i, o)) && Newest(StageStep(c, s, i, o))
  {
    hide Config.Capacity, EffectOfPush, CanPush, StagePush, Line, Affects, WithinCapacity, InOrder,
      Newest, Chain, Control, AbortStep, CloseQueue;
    var t := StageStep(c, s, i, o);
    StageAffectsLine(c, s, i, o);
    StageCounts(c, s, i, o);
    match s.stages[i]
    case Handing(p) =>
      PushKeepsHistory(c, s, i, p);
      OutputStaysOpen(s, i);
      StagePushKeepsNewest(c, s, i, p);
    case Aborting(k) => AbortOnlySignals(s, k); KeepsChain(s, t, Keeps); NewestKept(s, t);
    case CloseOutput =>
      if i < SINK {
        CloseOnlyCloses(s, i + 1);
      }
      KeepsChain(s, t, Keeps); NewestKept(s, t);
    case Body(f) =>
      if o.Throws? {} else if i == SINK {} else {}
      KeepsChain(s, t, EffectOf(c, s, StageMoves(i, o))); NewestKept(s, t);
    case Pop => KeepsChain(s, t, Keeps); NewestKept(s, t);
    case CheckAbort(_) => KeepsChain(s, t, Keeps); NewestKept(s, t);
    case CountDone(_) => KeepsChain(s, t, Keeps); NewestKept(s, t);
    case Release(_, _) => KeepsChain(s, t, Keeps); NewestKept(s, t);
    case CountDrop(_) => KeepsChain(s, t, Keeps); NewestKept(s, t);
  }

  /** In a failure-free run no step loses the newest admitted frame. */
  lemma StepKeepsNewest(c: Config, s: State, e: Event)
    requires c.Valid() && Control(s) && Shaped(s) && FailureControl(s) && WithinCapacity(c, s)
    requires InOrder(s) && Newest(s)
    requires Enabled(c, s, e) && !Step(c, s, e).history.failed
    ensures Shaped(Step(c, s, e)) && Newest(Step(c, s, e))
  {
    hide Config.Capacity, CaptureStep, StageStep, CaptureEnabled, StageEnabled, CloseQueue, Line,
      Affects, WithinCapacity, InOrder, Newest, Chain, Control, FailureControl;
    var t := Step(c, s, e);
    match e
    case CaptureMoves(o) => CaptureKeepsNewest(c, s, o);
    case StageMoves(i, o) => StageKeepsNewest(c, s, i, o);
    case RequestStop => StepAffectsLine(c, s, e); KeepsChain(s, t, Keeps); NewestKept(s, t);
    case RunCallback => CloseOnlyCloses(s, 0); StepAffectsLine(c, s, e); KeepsChain(s, t, Keeps); NewestKept(s, t);
  }

  // ---------- what capture has counted ----------

  /** Frames in capture's hand, or admitted but not counted yet. */
  function Uncounted(g: Capture): nat {
    if g.Pushing? then |InHand(g.p)| + Admits(g.p) else 0
  }

  /** The last number given out, when n is the next. */
  function LastBelow(n: nat): Option<nat> {
    if n == 0 then None else Some(n - 1)
  }

  /**
    The configurations in which capture's final frame can not be refused for want of room: the
    ingress does not drop new frames, or it has room for all of them, or for the whole pool.
   */
  predicate KeepsFinalFrame(c: Config)
    requires c.Valid()
  {
    !c.policy.DropNewest? || 0 < c.maxFrames <= c.Capacity(0) || c.Frames() <= c.Capacity(0)
  }

  /**
    Until a stop is requested every frame read is counted, or about to be; and unless the ingress
    may be full for a new frame, or a close overtakes a push, the newest frame counted has been
    admitted.
   */
  ghost predicate Counted(c: Config, s: State)
    requires c.Valid() && Shaped(s)
  {
    && (s.signals.stop || s.tally.nextSeq == s.tally.captured + Uncounted(s.capture))
    && (s.signals.stop || Uncounted(s.capture) > 0 || s.history.counted == LastBelow(s.tally.nextSeq))
    && (s.capture.Pushing? && InHand(s.capture.p) != [] ==> InHand(s.capture.p)[0].seqNo + 1 == s.tally.nextSeq)
    && (!KeepsFinalFrame(c) || s.history.raced ||
        if s.capture.Pushing? && Admits(s.capture.p) == 1
        then s.tally.nextSeq > 0 && LastOf(s.history.admitted) == Some(s.tally.nextSeq - 1)
        else s.history.counted == LastOf(s.history.admitted))
  }

  lemma SameCount(c: Config, s: State, t: State)
    requires c.Valid() && Shaped(s) && Shaped(t) && Counted(c, s) && t.capture == s.capture
    requires t.tally.nextSeq == s.tally.nextSeq
    requires t.tally.captured == s.tally.captured && (s.signals.stop ==> t.signals.stop)
    requires t.history.admitted == s.history.admitted && t.history.counted == s.history.counted
    requires s.history.raced ==> t.history.raced
    ensures Counted(c, t)
  {
    hide InHand, Admits, KeepsFinalFrame;
  }

  // ---------- room in the ingress ----------

  /** A new frame is never refused, in a configuration that keeps the final one. */
  ghost predicate RoomToInsert(c: Config, s: State)
    requires c.Valid() && Shaped(s)
  {
    KeepsFinalFrame(c) && c.policy.DropNewest? && s.capture.Pushing? && s.capture.p.Inserting? ==>
      !Full(c.policy, c.Capacity(0), s.queues[0])
  }

  /** Capture never reads more frames than it may. */
  ghost predicate WithinLimit(c: Config, s: State) {
    c.maxFrames > 0 ==>
      s.tally.nextSeq <= c.maxFrames && (s.capture.Acquire? || s.capture.Reading? ==> s.tally.nextSeq < c.maxFrames)
  }

  lemma StepKeepsLimit(c: Config, s: State, e: Event)
    requires c.Valid() && Shaped(s) && Enabled(c, s, e) && WithinLimit(c, s)
    ensures WithinLimit(c, Step(c, s, e))
  {
    hide Config.Capacity, CaptureStep, StageStep, CaptureEnabled, StageEnabled, CloseQueue;
    match e
    case CaptureMoves(o) => CaptureKeepsLimit(c, s, o);
    case StageMoves(i, o) => OneStageMoves(c, s, i, o); StageReadsNothing(c, s, i, o);
    case RequestStop =>
    case RunCallback => CloseOnlyCloses(s, 0);
  }

  lemma CaptureKeepsLimit(c: Config, s: State, o: Outcome)
    requires c.Valid() && Shaped(s) && CaptureEnabled(c, s, o) && WithinLimit(c, s)
    ensures WithinLimit(c, CaptureStep(c, s, o))
  {
    hide Config.Capacity, CanPush, PushStep, AbortStep, CloseQueue;
    match s.capture
    case Pushing(p) => if p.Releasing? {} else if p.Returned? {} else {}
    case Reading(_) => if o.Returns? {} else if o.Ends? {} else {}
    case Aborting(k) => AbortOnlySignals(s, k);
    case CloseIngress => CloseOnlyCloses(s, 0);
    case Acquire =>
    case CheckStop =>
    case CheckAborted =>
    case Dropped(_, _) =>
    case CountDrop(_) =>
  }

  lemma StageReadsNothing(c: Config, s: State, i: nat, o: Outcome)
    requires c.Valid() && Shaped(s) && i < 4 && StageEnabled(c, s, i)
    ensures StageStep(c, s, i, o).tally.nextSeq == s.tally.nextSeq
    ensures StageStep(c, s, i, o).history.admitted == s.history.admitted
  {
    hide Config.Capacity, CanPush, PushStep, AbortStep, CloseQueue;
    match s.stages[i]
    case Handing(p) => if p.Releasing? {} else if p.Returned? {} else {}
    case Body(f) => if o.Throws? {} else if i == SINK {} else {}
    case Pop => if |s.queues[i].items| > 0 {} else {}
    case Aborting(k) => AbortOnlySignals(s, k);
    case CloseOutput =>
      if i < SINK {
        CloseOnlyCloses(s, i + 1);
      }
    case CheckAbort(_) =>
    case CountDone(_) =>
    case Release(_, _) =>
    case CountDrop(_) =>
  }

  /** The ingress and capture's hand hold no more frames than the pool has, or than have been read. */
  lemma IngressIsBounded(c: Config, s: State, f: Frame)
    requires c.Valid() && FramesInv(c, s) && CaptureHand(s.capture) == [f]
    ensures |s.queues[0].items| + 1 <= c.Frames() && |s.queues[0].items| + 1 <= s.tally.nextSeq
  {
    hide Config.Capacity, Config.Frames, Line, Hand, CaptureHand, Limbo, CaptureLimbo;
    assert Accounted(c, s, All);
    InLineAll(Line(s));
    LineBySegments(s);
    NoMoreThan(Chain(s), s.tally.nextSeq);
  }

  lemma NoMoreThan(d: seq<nat>, n: nat)
    requires Increasing(d, n)
    ensures |d| <= n
  {
    if |d| > 0 {
      AtLeastIndex(d, n, |d| - 1);
    }
  }

  lemma RoomIsThere(c: Config, s: State)
    requires c.Valid() && FramesInv(c, s) && WithinLimit(c, s) && Shaped(s)
    ensures RoomToInsert(c, s)
  {
    hide Config.Capacity, Config.Frames, FramesInv;
    if s.capture.Pushing? && s.capture.p.Inserting? {
      IngressIsBounded(c, s, s.capture.p.f);
    }
  }

  /** How a push that is past the race ends: admitted, or refused because the ingress is closed. */
  lemma PushCounts(policy: Policy, capacity: nat, q: Queue, p: Push)
    requires CanPush(policy, capacity, q, p)
    ensures var (_, next) := PushStep(policy, capacity, q, p);
      && InHand(p) == [p.f] && Admits(p) == 0
      && (InHand(next) == [p.f] || InHand(next) == [])
      && (InHand(next) == [p.f] ==> Admits(next) == 0 && !Inserts(p, next))
      && (InHand(next) == [] && !q.closed ==> Admits(next) == 1)
      && (Inserts(p, next) ==> InHand(next) == [] && Admits(next) == 1)
      && (!(p.Inserting? && policy.DropNewest? && Full(policy, capacity, q)) && !(q.closed && Committed(p))
          && Admits(next) == 1 ==>
            Inserts(p, next))
  {
  }

  lemma CapturePushKeepsCount(c: Config, s: State, p: Push)
    requires c.Valid() && Control(s) && Shaped(s) && Counted(c, s) && s.capture == Pushing(p)
    requires p.Releasing? || p.Returned? || CanPush(c.policy, c.Capacity(0), s.queues[0], p)
    requires RoomToInsert(c, s)
    requires s.queues[0].closed && !s.history.raced ==> !CommittedCapture(s.capture)
    ensures Shaped(CapturePush(c, s, p)) && Counted(c, CapturePush(c, s, p))
  {
    hide Config.Capacity, CanPush, PushStep, CaptureControl, StageControl, Inserts, KeepsFinalFrame;
    assert ClosedFor(s, 0);
    if p.Releasing? {
    } else if p.Returned? {
      if p.result.Closed? {}
    } else {
      hide InHand, Admits;
      PushCounts(c.policy, c.Capacity(0), s.queues[0], p);
    }
  }

  lemma CaptureKeepsCount(c: Config, s: State, o: Outcome)
    requires c.Valid() && Control(s) && Shaped(s) && Counted(c, s) && CaptureEnabled(c, s, o)
    requires RoomToInsert(c, s)
    requires s.queues[0].closed && !s.history.raced ==> !CommittedCapture(s.capture)
    ensures Shaped(CaptureStep(c, s, o)) && Counted(c, CaptureStep(c, s, o))
  {
    hide Config.Capacity, CanPush, CapturePush, AbortStep, CloseQueue, Control, CommittedCapture,
      RoomToInsert, KeepsFinalFrame;
    match s.capture
    case Pushing(p) => CapturePushKeepsCount(c, s, p);
    case Reading(_) => if o.Returns? {} else if o.Ends? {} else {}
    case Aborting(k) => AbortKeepsCount(c, s, k);
    case CloseIngress => CloseKeepsCount(c, s, 0);
    case Acquire =>
    case CheckStop =>
    case CheckAborted =>
    case Dropped(_, _) =>
    case CountDrop(_) =>
  }

  lemma CloseKeepsCount(c: Config, s: State, k: nat)
    requires c.Valid() && Shaped(s) && k < 4 && Counted(c, s)
    ensures var t := CloseQueue(s, k);
      && Shaped(t) && Counted(c, t) && t.capture == s.capture && t.tally == s.tally && t.signals == s.signals
      && t.history.admitted == s.history.admitted
  {
    SameCount(c, s, CloseQueue(s, k));
  }

  lemma AbortKeepsCount(c: Config, s: State, k: nat)
    requires c.Valid() && Shaped(s) && CanAbort(k) && Counted(c, s)
    ensures var t := AbortStep(s, k);
      Shaped(t) && Counted(c, t) && t.capture == s.capture && t.tally == s.tally
        && t.history.admitted == s.history.admitted
  {
    hide Counted;
    if k >= 3 {
      CloseKeepsCount(c, s, k - 3);
    } else {
      SameCount(c, s, AbortStep(s, k));
    }
  }

  lemma StageKeepsCount(c: Config, s: State, i: nat, o: Outcome)
    requires c.Valid() && Shaped(s) && Counted(c, s) && i < 4 && StageEnabled(c, s, i)
    ensures Shaped(StageStep(c, s, i, o)) && Counted(c, StageStep(c, s, i, o))
  {
    hide Config.Capacity, CanPush, PushStep, AbortStep, CloseQueue, Counted;
    var t := StageStep(c, s, i, o);
    match s.stages[i]
    case Handing(p) => if p.Releasing? {} else if p.Returned? {} else {} SameCount(c, s, t);
    case Aborting(k) => AbortKeepsCount(c, s, k); SameCount(c, AbortStep(s, k), t);
    case CloseOutput =>
      if i < SINK {
        CloseKeepsCount(c, s, i + 1);
        SameCount(c, CloseQueue(s, i + 1), t);
      } else {
        SameCount(c, s, t);
      }
    case Body(f) => if o.Throws? {} else if i == SINK {} else {} SameCount(c, s, t);
    case Pop => if |s.queues[i].items| > 0 {} else {} SameCount(c, s, t);
    case CheckAbort(_) => SameCount(c, s, t);
    case CountDone(_) => SameCount(c, s, t);
    case Release(_, _) => SameCount(c, s, t);
    case CountDrop(_) => SameCount(c, s, t);
  }

  lemma StepKeepsCount(c: Config, s: State, e: Event)
    requires c.Valid() && Control(s) && Shaped(s) && Counted(c, s) && Enabled(c, s, e)
    requires RoomToInsert(c, s)
    requires s.queues[0].closed && !s.history.raced ==> !CommittedCapture(s.capture)
    ensures Shaped(Step(c, s, e)) && Counted(c, Step(c, s, e))
  {
    hide Config.Capacity, CaptureStep, StageStep, CaptureEnabled, StageEnabled, CloseQueue, Control,
      Counted, CommittedCapture, RoomToInsert;
    match e
    case CaptureMoves(o) => CaptureKeepsCount(c, s, o);
    case StageMoves(i, o) => StageKeepsCount(c, s, i, o);
    case RequestStop => SameCount(c, s, Step(c, s, e));
    case RunCallback =>
      CloseKeepsCount(c, s, 0);
      SameCount(c, CloseQueue(s, 0), Step(c, s, e));
  }

  // ---------- blocking hand-offs drop nothing ----------

  predicate CleanPush(p: Push) {
    !p.Publishing? && Drops(p) == 0
  }

  predicate CleanCapture(g: Capture) {
    match g
    case Pushing(p) => CleanPush(p)
    case CountDrop(r) => !IsDrop(r)
    case _ => true
  }

  predicate CleanStage(g: Stage) {
    match g
    case Handing(p) => CleanPush(p)
    case CountDrop(r) => !IsDrop(r)
    case _ => true
  }

  /** Nothing has been dropped, and nothing is about to be. */
  ghost predicate NothingDropped(s: State)
    requires Shaped(s)
  {
    s.tally.dropped == 0 && CleanCapture(s.capture) && forall i :: 0 <= i < 4 ==> CleanStage(s.stages[i])
  }

  lemma BlockingPushIsClean(capacity: nat, q: Queue, p: Push)
    requires CanPush(Block, capacity, q, p) && CleanPush(p)
    ensures CleanPush(PushStep(Block, capacity, q, p).1)
  {
  }

  lemma StepDropsNothing(c: Config, s: State, e: Event)
    requires c.Valid() && Shaped(s) && Enabled(c, s, e) && c.policy.Block? && NothingDropped(s)
    ensures Shaped(Step(c, s, e)) && NothingDropped(Step(c, s, e))
  {
    hide Config.Capacity, CaptureStep, StageStep, CaptureEnabled, StageEnabled, CloseQueue,
      CleanCapture, CleanStage;
    match e
    case CaptureMoves(o) => CaptureDropsNothing(c, s, o);
    case StageMoves(i, o) => StageDropsNothing(c, s, i, o);
    case RequestStop =>
    case RunCallback => CloseOnlyCloses(s, 0);
  }

  lemma CaptureDropsNothing(c: Config, s: State, o: Outcome)
    requires c.Valid() && Shaped(s) && CaptureEnabled(c, s, o) && c.policy.Block? && NothingDropped(s)
    ensures Shaped(CaptureStep(c, s, o)) && NothingDropped(CaptureStep(c, s, o))
  {
    hide Config.Capacity, CanPush, PushStep, AbortStep, CloseQueue, CleanStage;
    match s.capture
    case Pushing(p) =>
      if p.Releasing? {} else if p.Returned? {} else { BlockingPushIsClean(c.Capacity(0), s.queues[0], p); }
    case Reading(_) => if o.Returns? {} else if o.Ends? {} else {}
    case Aborting(k) => AbortOnlySignals(s, k);
    case CloseIngress => CloseOnlyCloses(s, 0);
    case Acquire =>
    case CheckStop =>
    case CheckAborted =>
    case Dropped(_, _) =>
    case CountDrop(_) =>
  }

  lemma StageDropsNothing(c: Config, s: State, i: nat, o: Outcome)
    requires c.Valid() && Shaped(s) && i < 4 && StageEnabled(c, s, i) && c.policy.Block? && NothingDropped(s)
    ensures Shaped(StageStep(c, s, i, o)) && NothingDropped(StageStep(c, s, i, o))
  {
    hide Config.Capacity, CanPush, PushStep, AbortStep, CloseQueue, CleanCapture;
    assert CleanStage(s.stages[i]);
    match s.stages[i]
    case Handing(p) =>
      if p.Releasing? {} else if p.Returned? {} else { BlockingPushIsClean(c.Capacity(i + 1), s.queues[i + 1], p); }
    case Body(f) => if o.Throws? {} else if i == SINK {} else {}
    case Pop => if |s.queues[i].items| > 0 {} else {}
    case Aborting(k) => AbortOnlySignals(s, k);
    case CloseOutput =>
      if i < SINK {
        CloseOnlyCloses(s, i + 1);
      }
    case CheckAbort(_) =>
    case CountDone(_) =>
    case Release(_, _) =>
    case CountDrop(_) =>
  }

  // ---------- whole runs ----------

  ghost predicate Delivers(c: Config, s: State)
    requires c.Valid() && Shaped(s)
  {
    && Sound(c, s)
    && WithinLimit(c, s)
    && (!s.history.failed ==> Newest(s) && Counted(c, s))
    && (c.policy.Block? ==> NothingDropped(s))
  }

  lemma InitDelivers(c: Config)
    requires c.Valid()
    ensures Delivers(c, Init(c))
  {
    hide Config.Capacity, Config.Frames, Sound, Line;
    InitSound(c);
    NothingInLine(c);
  }

  /** What Sound says, as far as delivery needs it. */
  lemma SoundParts(c: Config, s: State)
    requires c.Valid() && Sound(c, s)
    ensures Shaped(s) && WithinCapacity(c, s) && InOrder(s) && Control(s) && FailureControl(s)
    ensures !s.history.failed && s.queues[0].closed && !s.history.raced ==> !CommittedCapture(s.capture)
  {
    hide Config.Capacity, Conserved, Control, FailureControl, InOrder, Line;
  }

  lemma StepKeepsDelivers(c: Config, s: State, e: Event)
    requires c.Valid() && Shaped(s) && Delivers(c, s) && Enabled(c, s, e)
    ensures Shaped(Step(c, s, e)) && Delivers(c, Step(c, s, e))
  {
    hide Config.Capacity, FramesInv, WithinCapacity, InOrder, Control, FailureControl, Completion,
      Ledger, Line, Drained, Newest, Counted, NothingDropped, Step, Enabled, CommittedCapture,
      RoomToInsert, WithinLimit;
    StepKeepsSound(c, s, e);
    SoundParts(c, s);
    StepKeepsLimit(c, s, e);
    RoomIsThere(c, s);
    if c.policy.Block? {
      StepDropsNothing(c, s, e);
    }
    if !Step(c, s, e).history.failed {
      if s.history.failed {
        FailureStays(c, s, e);
      } else {
        StepKeepsNewest(c, s, e);
        StepKeepsCount(c, s, e);
      }
    }
  }

  lemma {:induction false} RunKeepsDelivers(c: Config, s: State, es: seq<Event>)
    requires c.Valid() && Shaped(s) && Delivers(c, s) && Follows(c, s, es)
    ensures Shaped(Run(c, s, es)) && Delivers(c, Run(c, s, es))
    decreases |es|
  {
    hide Delivers, Step, Enabled, Config.Capacity;
    if es != [] {
      StepKeepsDelivers(c, s, es[0]);
      RunKeepsDelivers(c, Step(c, s, es[0]), es[1..]);
    }
  }

  lemma NothingLeft(c: Config, s: State)
    requires c.Valid() && Sound(c, s) && Shaped(s) && AllExited(s) && !s.history.failed
    ensures s.history.raced ==> s.signals.stop
    ensures !s.history.raced ==> Line(s) == []
    ensures s.tally.completed == |s.history.delivered|
    ensures !s.history.raced ==> s.tally.captured == s.tally.completed + s.tally.dropped
    ensures Increasing(s.history.delivered, s.tally.nextSeq)
  {
    hide Config.Capacity, Config.Frames, Control, FailureControl, Line, Conserved;
    AllFramesComeBack(c, s);
    assert s.stages[0].Exited? && s.stages[1].Exited? && s.stages[2].Exited? && s.stages[3].Exited?;
    assert forall i :: 0 <= i < |s.history.delivered| ==> s.history.delivered[i] == Chain(s)[i];
  }

  /**
    In a failure-free run in which no close overtook a push, the newest frame admitted to the
    ingress is the last the sinks see; in a configuration that keeps the final frame, that is the
    newest frame captured.
   */
  lemma NewestGetsThrough(c: Config, es: seq<Event>)
    requires c.Valid() && Follows(c, Init(c), es) && Shaped(Run(c, Init(c), es))
    requires AllExited(Run(c, Init(c), es)) && !Run(c, Init(c), es).history.failed
    requires !Run(c, Init(c), es).history.raced
    ensures var s := Run(c, Init(c), es);
      && LastOf(s.history.admitted) == LastOf(s.history.delivered)
      && (KeepsFinalFrame(c) ==> s.history.counted == LastOf(s.history.delivered))
  {
    hide Config.Capacity, Config.Frames, Sound, Line, Step, Enabled, NothingDropped, KeepsFinalFrame;
    InitDelivers(c);
    RunKeepsDelivers(c, Init(c), es);
    NothingLeft(c, Run(c, Init(c), es));
  }

  /**
    A run that ends by the end of the source or by the frame limit counts every frame it read, and
    in a configuration that keeps the final frame the last of them reaches the sinks.
   */
  lemma FinalFrameIsDelivered(c: Config, es: seq<Event>)
    requires c.Valid() && Follows(c, Init(c), es) && Shaped(Run(c, Init(c), es))
    requires AllExited(Run(c, Init(c), es)) && !Run(c, Init(c), es).history.failed
    requires !Run(c, Init(c), es).signals.stop
    ensures var s := Run(c, Init(c), es);
      && s.tally.captured == s.tally.nextSeq == s.tally.completed + s.tally.dropped
      && (KeepsFinalFrame(c) ==> LastOf(s.history.delivered) == LastBelow(s.tally.nextSeq))
  {
    hide Config.Capacity, Config.Frames, Sound, Line, Step, Enabled, NothingDropped, KeepsFinalFrame;
    InitDelivers(c);
    RunKeepsDelivers(c, Init(c), es);
    NothingLeft(c, Run(c, Init(c), es));
    NewestGetsThrough(c, es);
  }

  /** With a blocking ingress such a run delivers every frame, once and in order. */
  lemma BlockingDeliversEveryFrame(c: Config, es: seq<Event>)
    requires c.Valid() && c.policy.Block? && Follows(c, Init(c), es) && Shaped(Run(c, Init(c), es))
    requires AllExited(Run(c, Init(c), es)) && !Run(c, Init(c), es).history.failed
    requires !Run(c, Init(c), es).signals.stop
    ensures var s := Run(c, Init(c), es); s.history.delivered == Ids(s.tally.nextSeq)
  {
    hide Config.Capacity, Config.Frames, Sound, Line, Step, Enabled, Newest, KeepsFinalFrame;
    InitDelivers(c);
    RunKeepsDelivers(c, Init(c), es);
    var s := Run(c, Init(c), es);
    NothingLeft(c, s);
    FullRange(s.history.delivered, s.tally.nextSeq);
  }

  /** Increasing numbers below their count are all of them. */
  lemma {:induction false} FullRange(d: seq<nat>, n: nat)
    requires Increasing(d, n) && |d| == n
    ensures d == Ids(n)
  {
    if n > 0 {
      assert d == d[..n - 1] + [d[n - 1]];
      AtLeastIndex(d, n, n - 1);
      FullRange(d[..n - 1], n - 1);
      assert Ids(n) == Ids(n - 1) + [n - 1];
    }
  }

  lemma {:induction false} AtLeastIndex(d: seq<nat>, n: nat, i: nat)
    requires Increasing(d, n) && i < |d|
    ensures d[i] >= i
  {
    if i > 0 {
      AtLeastIndex(d, n, i - 1);
    }
  }
}
