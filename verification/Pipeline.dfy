/**
  The five-thread pipeline as an interleaving of steps: capture on the calling thread, then
  preprocess, inference, postprocess and sink, joined by four hand-offs and fed from one pool.

  Stage i (0 to 3) pops hand-off i and, except for the sink, pushes hand-off i + 1. What the
  source, the stage bodies and the sinks do is up to the environment: they return or throw.
 */
module Pipeline {
  import opened Common
  import opened HandOff
  import opened Words

  const SINK := 3

  datatype Config = Config(policy: Policy, ingressCapacity: nat, stageCapacity: nat, maxFrames: nat, poolSize: nat) {
    /** What the constructor and the ring demand of a configuration. */
    ghost predicate Valid() {
      0 < ingressCapacity <= MAX_CAPACITY && 0 < stageCapacity <= MAX_CAPACITY
    }

    function InternalPolicy(): Policy {
      if policy.Latest? then Latest else Block
    }

    function PolicyOf(k: nat): Policy {
      if k == 0 then policy else InternalPolicy()
    }

    /** How many frames hand-off k can hold; a ring rounds its capacity up to a power of two. */
    function Capacity(k: nat): nat
      requires Valid()
    {
      if policy.Latest? then 1 else BitCeil(if k == 0 then ingressCapacity else stageCapacity)
    }

    /** The size of the frame pool: as configured, or enough for every slot and every hand. */
    function Frames(): nat
      requires Valid()
    {
      if poolSize > 0 then poolSize
      else
        var ingressSlots := if policy.Latest? then 3 else BitCeil(ingressCapacity);
        var perStage := if policy.Latest? then 3 else BitCeil(stageCapacity);
        ingressSlots + 3 * perStage + 5 + 1
    }
  }

  /**
    `abort`, by the step about to be taken: 0 stores the error, 1 sets `aborted`, 2 requests the
    stop, 3 to 6 close the four hand-offs.
   */
  datatype Capture =
    | CheckStop
    | CheckAborted
    | Acquire
    | Reading(id: nat)
    | Dropped(id: nat, thrown: bool)   // a frame leaves the loop unread; it goes back to the pool
    | Pushing(p: Push)
    | CountDrop(result: Result)
    | Aborting(k: nat)
    | CloseIngress
    | Exited

  datatype Stage =
    | Pop
    | CheckAbort(f: Frame)
    | Body(f: Frame)
    | CountDone(f: Frame)              // sink only: delivered, about to count
    | Release(id: nat, thrown: bool)   // the frame goes back to the pool
    | Handing(p: Push)
    | CountDrop(result: Result)
    | Aborting(k: nat)
    | CloseOutput
    | Exited

  datatype Signals = Signals(stop: bool, callbackPending: bool, aborted: bool, error: bool)

  datatype Tally = Tally(captured: nat, dropped: nat, completed: nat, nextSeq: nat)

  /**
    History, which no step looks at: what the sinks saw, whether anything threw, whether a close
    overtook a capture push, the frames admitted to the ingress and the last one captured.
   */
  datatype History = History(delivered: seq<nat>, failed: bool, raced: bool, admitted: seq<nat>,
    counted: Option<nat>)

  datatype State = State(
    free: seq<nat>, queues: seq<Queue>, capture: Capture, stages: seq<Stage>,
    signals: Signals, tally: Tally, history: History)

  function Ids(n: nat): (s: seq<nat>) {
    seq(n, i => i)
  }

  function Init(c: Config): State
    requires c.Valid()
  {
    State(Ids(c.Frames()), [Queue([], false), Queue([], false), Queue([], false), Queue([], false)],
          CheckStop, [Pop, Pop, Pop, Pop],
          Signals(false, false, false, false), Tally(0, 0, 0, 0), History([], false, false, [], None))
  }

  function LastOf(numbers: seq<nat>): Option<nat> {
    if numbers == [] then None else Some(numbers[|numbers| - 1])
  }

  ghost predicate Shaped(s: State) {
    |s.queues| == 4 && |s.stages| == 4
  }

  /** How a call into foreign code ends. */
  datatype Outcome = Returns | Ends | Throws

  datatype Event = CaptureMoves(o: Outcome) | StageMoves(i: nat, o: Outcome) | RequestStop | RunCallback

  /** Capture has a push past its look at `closed`. */
  predicate CommittedCapture(g: Capture) {
    g.Pushing? && Committed(g.p)
  }

  function CountIf(n: Tally, drop: bool): Tally {
    if drop then n.(dropped := n.dropped + 1) else n
  }

  /** Close hand-off k; remember whether that overtook a capture push already past its check. */
  function CloseQueue(s: State, k: nat): State
    requires Shaped(s) && k < 4
  {
    s.(queues := s.queues[k := s.queues[k].(closed := true)],
       history := s.history.(
         raced := s.history.raced || (k == 0 && !s.queues[0].closed && CommittedCapture(s.capture))))
  }

  predicate CanAbort(k: nat) {
    k < 7
  }

  function AbortStep(s: State, k: nat): State
    requires Shaped(s) && CanAbort(k)
  {
    if k == 0 then s.(signals := s.signals.(error := true))
    else if k == 1 then s.(signals := s.signals.(aborted := true))
    else if k == 2 then s.(signals := s.signals.(stop := true))
    else CloseQueue(s, k - 3)
  }

  /** Closing a hand-off does nothing else, but for what history remembers. */
  lemma CloseOnlyCloses(s: State, k: nat)
    requires Shaped(s) && k < 4
    ensures var t := CloseQueue(s, k);
      && Shaped(t) && t.free == s.free && t.capture == s.capture && t.stages == s.stages
      && t.signals == s.signals && t.tally == s.tally
      && t.queues == s.queues[k := s.queues[k].(closed := true)]
      && t.history == s.history.(raced := t.history.raced)
  {
  }

  /** A step of `abort` sets one signal or closes one hand-off, and does nothing else. */
  lemma AbortOnlySignals(s: State, k: nat)
    requires Shaped(s) && CanAbort(k)
    ensures var t := AbortStep(s, k);
      && Shaped(t) && t.free == s.free && t.capture == s.capture && t.stages == s.stages && t.tally == s.tally
      && t.history == s.history.(raced := t.history.raced)
      && t.signals == Signals(s.signals.stop || k == 2, s.signals.callbackPending,
                             s.signals.aborted || k == 1, s.signals.error || k == 0)
      && forall j :: 0 <= j < 4 ==> t.queues[j] == s.queues[j].(closed := s.queues[j].closed || k == j + 3)
  {
    if k == 0 {} else if k == 1 {} else if k == 2 {} else {}
  }

  predicate CaptureEnabled(c: Config, s: State, o: Outcome)
    requires c.Valid() && Shaped(s)
  {
    match s.capture
    case Acquire => s.signals.stop || |s.free| > 0
    case Reading(_) => true
    case Pushing(p) => p.Releasing? || p.Returned? || CanPush(c.policy, c.Capacity(0), s.queues[0], p)
    case Aborting(k) => CanAbort(k)
    case Exited => false
    case _ => true
  }

  function CaptureRead(s: State, id: nat, o: Outcome): State {
    match o
    case Returns =>
      s.(capture := Pushing(Checking(Frame(id, s.tally.nextSeq))),
         tally := s.tally.(nextSeq := s.tally.nextSeq + 1))
    case Ends => s.(capture := Dropped(id, false))
    case Throws => s.(capture := Dropped(id, true), history := s.history.(failed := true))
  }

  function CapturePush(c: Config, s: State, p: Push): State
    requires c.Valid() && Shaped(s)
    requires p.Releasing? || p.Returned? || CanPush(c.policy, c.Capacity(0), s.queues[0], p)
  {
    match p
    case Releasing(id, result) => s.(free := s.free + [id], capture := Pushing(Returned(result)))
    case Returned(result) =>
      if result.Closed? then s.(capture := CloseIngress)
      else
        var newest := if s.tally.nextSeq > 0 then Some(s.tally.nextSeq - 1) else None;
        s.(tally := s.tally.(captured := s.tally.captured + 1), history := s.history.(counted := newest),
           capture := Capture.CountDrop(result))
    case _ =>
      var (q, next) := PushStep(c.policy, c.Capacity(0), s.queues[0], p);
      s.(queues := s.queues[0 := q], capture := Pushing(next),
         history := if Inserts(p, next) then s.history.(admitted := s.history.admitted + [p.f.seqNo]) else s.history)
  }

  function CaptureStep(c: Config, s: State, o: Outcome): State
    requires c.Valid() && Shaped(s) && CaptureEnabled(c, s, o)
  {
    match s.capture
    case CheckStop => s.(capture := if s.signals.stop then CloseIngress else CheckAborted)
    case CheckAborted =>
      s.(capture :=
           if s.signals.aborted || (c.maxFrames > 0 && s.tally.nextSeq >= c.maxFrames) then CloseIngress else Acquire)
    case Acquire =>
      if |s.free| > 0 then s.(free := s.free[..|s.free| - 1], capture := Reading(s.free[|s.free| - 1]))
      else s.(capture := CloseIngress)
    case Reading(id) => CaptureRead(s, id, o)
    case Dropped(id, thrown) =>
      s.(free := s.free + [id], capture := if thrown then Capture.Aborting(0) else CloseIngress)
    case Pushing(p) => CapturePush(c, s, p)
    case CountDrop(result) =>
      s.(tally := CountIf(s.tally, IsDrop(result)), capture := CheckStop)
    case Aborting(k) =>
      AbortStep(s, k).(capture := if k < 6 then Capture.Aborting(k + 1) else CloseIngress)
    case CloseIngress => CloseQueue(s, 0).(capture := Capture.Exited)
  }

  predicate StageEnabled(c: Config, s: State, i: nat)
    requires c.Valid() && Shaped(s) && i < 4
  {
    match s.stages[i]
    case Pop => |s.queues[i].items| > 0 || s.queues[i].closed
    case Handing(p) =>
      i < SINK && (p.Releasing? || p.Returned? || CanPush(c.PolicyOf(i + 1), c.Capacity(i + 1), s.queues[i + 1], p))
    case Aborting(k) => CanAbort(k)
    case Exited => false
    case _ => true
  }

  function SetStage(s: State, i: nat, g: Stage): State
    requires Shaped(s) && i < 4
  {
    s.(stages := s.stages[i := g])
  }

  function StagePop(s: State, i: nat): State
    requires Shaped(s) && i < 4
  {
    var items := s.queues[i].items;
    if |items| > 0 then
      SetStage(s.(queues := s.queues[i := s.queues[i].(items := items[1..])]), i, CheckAbort(items[0]))
    else
      SetStage(s, i, CloseOutput)
  }

  function StageBody(s: State, i: nat, f: Frame, o: Outcome): State
    requires Shaped(s) && i < 4
  {
    if o.Throws? then SetStage(s.(history := s.history.(failed := true)), i, Release(f.id, true))
    else if i == SINK then
      SetStage(s.(history := s.history.(delivered := s.history.delivered + [f.seqNo])), i, CountDone(f))
    else SetStage(s, i, Handing(Checking(f)))
  }

  function StagePush(c: Config, s: State, i: nat, p: Push): State
    requires c.Valid() && Shaped(s) && i < SINK
    requires p.Releasing? || p.Returned? || CanPush(c.PolicyOf(i + 1), c.Capacity(i + 1), s.queues[i + 1], p)
  {
    match p
    case Releasing(id, result) => SetStage(s.(free := s.free + [id]), i, Handing(Returned(result)))
    case Returned(result) => SetStage(s, i, Stage.CountDrop(result))
    case _ =>
      var (q, next) := PushStep(c.PolicyOf(i + 1), c.Capacity(i + 1), s.queues[i + 1], p);
      SetStage(s.(queues := s.queues[i + 1 := q]), i, Handing(next))
  }

  function StageStep(c: Config, s: State, i: nat, o: Outcome): State
    requires c.Valid() && Shaped(s) && i < 4 && StageEnabled(c, s, i)
  {
    match s.stages[i]
    case Pop => StagePop(s, i)
    case CheckAbort(f) => SetStage(s, i, if s.signals.aborted then Release(f.id, false) else Body(f))
    case Body(f) => StageBody(s, i, f, o)
    case CountDone(f) => SetStage(s.(tally := s.tally.(completed := s.tally.completed + 1)), i, Release(f.id, false))
    case Release(id, thrown) =>
      SetStage(s.(free := s.free + [id]), i, if thrown then Stage.Aborting(0) else Pop)
    case Handing(p) => StagePush(c, s, i, p)
    case CountDrop(result) =>
      SetStage(s.(tally := CountIf(s.tally, IsDrop(result))), i, Pop)
    case Aborting(k) => SetStage(AbortStep(s, k), i, if k < 6 then Stage.Aborting(k + 1) else CloseOutput)
    case CloseOutput => SetStage(if i < SINK then CloseQueue(s, i + 1) else s, i, Stage.Exited)
  }

  predicate Enabled(c: Config, s: State, e: Event)
    requires c.Valid() && Shaped(s)
  {
    match e
    case CaptureMoves(o) => CaptureEnabled(c, s, o)
    case StageMoves(i, o) => i < 4 && StageEnabled(c, s, i)
    case RequestStop => !s.signals.stop
    case RunCallback => s.signals.callbackPending
  }

  function Step(c: Config, s: State, e: Event): State
    requires c.Valid() && Shaped(s) && Enabled(c, s, e)
  {
    match e
    case CaptureMoves(o) => CaptureStep(c, s, o)
    case StageMoves(i, o) => StageStep(c, s, i, o)
    case RequestStop => s.(signals := s.signals.(stop := true, callbackPending := true))
    case RunCallback => CloseQueue(s, 0).(signals := s.signals.(callbackPending := false))
  }

  /** All five threads have exited; `run` returns. */
  predicate AllExited(s: State)
    requires Shaped(s)
  {
    s.capture.Exited? && forall i :: 0 <= i < 4 ==> s.stages[i].Exited?
  }

  // ---------- runs ----------

  /** A schedule that can be followed from s. */
  ghost predicate Follows(c: Config, s: State, es: seq<Event>)
    requires c.Valid()
    decreases |es|
  {
    es == [] || (Shaped(s) && Enabled(c, s, es[0]) && Follows(c, Step(c, s, es[0]), es[1..]))
  }

  ghost function Run(c: Config, s: State, es: seq<Event>): State
    requires c.Valid() && Follows(c, s, es)
    decreases |es|
  {
    if es == [] then s else Run(c, Step(c, s, es[0]), es[1..])
  }
}
