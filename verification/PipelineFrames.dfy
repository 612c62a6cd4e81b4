/**
  Where the frames are. Read from the sinks back to the camera, the hands and hand-offs form one
  line of frames; every step leaves the line alone, takes one frame out, adds one at the camera
  end, or delivers the one at the front. Order and conservation follow from that.
 */
module PipelineFrames {
  import opened Common
  import opened HandOff
  import opened Pipeline
  import opened Words

  ghost function Hand(g: Stage): seq<Frame> {
    match g
    case CheckAbort(f) => [f]
    case Body(f) => [f]
    case Handing(p) => InHand(p)
    case _ => []
  }

  ghost function CaptureHand(g: Capture): seq<Frame> {
    if g.Pushing? then InHand(g.p) else []
  }

  /** A frame on its way back to the pool, or not yet on its way in. */
  ghost function Limbo(g: Stage): Option<nat> {
    match g
    case CountDone(f) => Some(f.id)
    case Release(id, _) => Some(id)
    case Handing(p) => Dropping(p)
    case _ => None
  }

  ghost function CaptureLimbo(g: Capture): Option<nat> {
    match g
    case Reading(id) => Some(id)
    case Dropped(id, _) => Some(id)
    case Pushing(p) => Dropping(p)
    case _ => None
  }

  /** Segment k of the line: the sink's hand, hand-off 3, the hand of stage 2, ..., hand-off 0, the camera's hand. */
  ghost function Segment(s: State, k: nat): seq<Frame>
    requires Shaped(s) && k < 9
  {
    if k == 8 then CaptureHand(s.capture)
    else if k % 2 == 0 then Hand(s.stages[3 - k / 2])
    else s.queues[3 - k / 2].items
  }

  ghost function Segments(s: State): (r: seq<seq<Frame>>)
    requires Shaped(s)
    ensures |r| == 9 && forall k :: 0 <= k < 9 ==> r[k] == Segment(s, k)
  {
    seq(9, k requires 0 <= k < 9 => Segment(s, k))
  }

  ghost function Flatten(ss: seq<seq<Frame>>): seq<Frame> {
    if |ss| == 0 then [] else ss[0] + Flatten(ss[1..])
  }

  ghost function Line(s: State): seq<Frame>
    requires Shaped(s)
  {
    Flatten(Segments(s))
  }

  lemma {:induction false} FlattenConcat(a: seq<seq<Frame>>, b: seq<seq<Frame>>)
    ensures Flatten(a + b) == Flatten(a) + Flatten(b)
  {
    if |a| == 0 {
      assert a + b == b;
    } else {
      assert (a + b)[1..] == a[1..] + b;
      FlattenConcat(a[1..], b);
    }
  }

  /** Two neighbouring segments, and what lies before and after them. */
  lemma FlattenPair(ss: seq<seq<Frame>>, k: nat, x: seq<Frame>, y: seq<Frame>)
    requires k + 1 < |ss|
    ensures Flatten(ss[k := x][k + 1 := y]) == Flatten(ss[..k]) + (x + y) + Flatten(ss[k + 2..])
  {
    var t := ss[k := x][k + 1 := y];
    assert t == ss[..k] + ([x] + ([y] + ss[k + 2..]));
    FlattenConcat(ss[..k], [x] + ([y] + ss[k + 2..]));
    FlattenConcat([x], [y] + ss[k + 2..]);
    FlattenConcat([y], ss[k + 2..]);
    assert Flatten([x]) == x && Flatten([y]) == y;
  }

  /** What a step does to the line. */
  datatype Effect = Keeps | Loses(f: Frame) | Enters(f: Frame) | Sinks(f: Frame)

  /** `Loses` holds when t is s with one occurrence of f taken out. */
  ghost predicate Without(s: seq<Frame>, f: Frame, t: seq<Frame>) {
    exists a, b :: s == a + [f] + b && t == a + b
  }

  ghost predicate Affects(s: seq<Frame>, x: Effect, t: seq<Frame>) {
    match x
    case Keeps => t == s
    case Loses(f) => Without(s, f, t)
    case Enters(f) => t == s + [f]
    case Sinks(f) => s == [f] + t
  }

  /** A change of one or two neighbouring segments is a change of the line. */
  lemma LocalEffect(ss: seq<seq<Frame>>, k: nat, x: seq<Frame>, y: seq<Frame>, e: Effect)
    requires k + 1 < |ss|
    requires e.Keeps? || e.Loses?
    requires Affects(ss[k] + ss[k + 1], e, x + y)
    ensures Affects(Flatten(ss), e, Flatten(ss[k := x][k + 1 := y]))
  {
    FlattenPair(ss, k, x, y);
    FlattenPair(ss, k, ss[k], ss[k + 1]);
    assert ss[k := ss[k]][k + 1 := ss[k + 1]] == ss;
    if e.Loses? {
      var a, b :| ss[k] + ss[k + 1] == a + [e.f] + b && x + y == a + b;
      var before, after := Flatten(ss[..k]), Flatten(ss[k + 2..]);
      assert Flatten(ss) == (before + a) + [e.f] + (b + after);
      assert Flatten(ss[k := x][k + 1 := y]) == (before + a) + (b + after);
    }
  }

  lemma FirstEffect(ss: seq<seq<Frame>>, f: Frame)
    requires |ss| > 0 && ss[0] == [f]
    ensures Affects(Flatten(ss), Sinks(f), Flatten(ss[0 := []]))
  {
    assert ss[0 := []][1..] == ss[1..];
    assert Flatten(ss) == [f] + Flatten(ss[1..]) && Flatten(ss[0 := []]) == [] + Flatten(ss[1..]);
  }

  lemma LastEffect(ss: seq<seq<Frame>>, f: Frame)
    requires |ss| == 9 && ss[8] == []
    ensures Affects(Flatten(ss), Enters(f), Flatten(ss[8 := [f]]))
  {
    FlattenPair(ss, 7, ss[7], [f]);
    FlattenPair(ss, 7, ss[7], []);
    assert ss[7 := ss[7]][8 := []] == ss && ss[7 := ss[7]][8 := [f]] == ss[8 := [f]];
    var before := Flatten(ss[..7]);
    assert Flatten(ss[9..]) == [];
    assert before + (ss[7] + [f]) + [] == before + (ss[7] + []) + [] + [f];
  }

  // ---------- steps and their effects ----------

  ghost function EffectOfPush(policy: Policy, capacity: nat, q: Queue, p: Push): Effect {
    if CanPush(policy, capacity, q, p) then
      match ChangeOf(policy, capacity, q, p)
      case Kept => Keeps
      case Lost(f) => Loses(f)
    else Keeps
  }

  ghost function EffectOf(c: Config, s: State, e: Event): Effect
    requires c.Valid() && Shaped(s) && Enabled(c, s, e)
  {
    match e
    case CaptureMoves(o) =>
      (match s.capture
       case Reading(id) => if o.Returns? then Enters(Frame(id, s.tally.nextSeq)) else Keeps
       case Pushing(p) => EffectOfPush(c.policy, c.Capacity(0), s.queues[0], p)
       case _ => Keeps)
    case StageMoves(i, o) =>
      (match s.stages[i]
       case CheckAbort(f) => if s.signals.aborted then Loses(f) else Keeps
       case Body(f) => if o.Throws? then Loses(f) else if i == SINK then Sinks(f) else Keeps
       case Handing(p) => EffectOfPush(c.PolicyOf(i + 1), c.Capacity(i + 1), s.queues[i + 1], p)
       case _ => Keeps)
    case _ => Keeps
  }

  /** No hand-off holds more frames than it has room for. */
  ghost predicate WithinCapacity(c: Config, s: State)
    requires c.Valid()
  {
    Shaped(s) && forall k :: 0 <= k < 4 ==> Bounded(c.PolicyOf(k), c.Capacity(k), s.queues[k])
  }

  /** Changing stage i and the queues beside it changes the segments beside it. */
  lemma SegmentsOfStage(s: State, t: State, i: nat)
    requires Shaped(s) && Shaped(t) && i < 4 && t.capture == s.capture
    requires forall j :: 0 <= j < 4 && j != i ==> t.stages[j] == s.stages[j]
    ensures (forall k :: 0 <= k < 4 && k != i ==> t.queues[k].items == s.queues[k].items) ==>
      Segments(t) == Segments(s)[2 * (3 - i) := Hand(t.stages[i])][2 * (3 - i) + 1 := t.queues[i].items]
    ensures i < 3 && (forall k :: 0 <= k < 4 && k != i + 1 ==> t.queues[k].items == s.queues[k].items) ==>
      Segments(t) == Segments(s)[2 * (3 - i) - 1 := t.queues[i + 1].items][2 * (3 - i) := Hand(t.stages[i])]
  {
  }

  lemma SegmentsOfCapture(s: State, t: State)
    requires Shaped(s) && Shaped(t) && t.stages == s.stages
    requires forall k :: 1 <= k < 4 ==> t.queues[k].items == s.queues[k].items
    ensures Segments(t) == Segments(s)[7 := t.queues[0].items][8 := CaptureHand(t.capture)]
  {
  }

  /** What a push does to the frames of its queue and the pusher's hand. */
  lemma PushAffects(policy: Policy, capacity: nat, q: Queue, p: Push)
    requires CanPush(policy, capacity, q, p) && Bounded(policy, capacity, q)
    ensures var (q', p') := PushStep(policy, capacity, q, p);
      && Bounded(policy, capacity, q')
      && !EffectOfPush(policy, capacity, q, p).Enters? && !EffectOfPush(policy, capacity, q, p).Sinks?
      && Affects(q.items + InHand(p), EffectOfPush(policy, capacity, q, p), q'.items + InHand(p'))
  {
    PushKeepsOrLoses(policy, capacity, q, p);
    var (q', p') := PushStep(policy, capacity, q, p);
    if ChangeOf(policy, capacity, q, p).Lost? {
      var f := ChangeOf(policy, capacity, q, p).f;
      var all, left := q.items + InHand(p), q'.items + InHand(p');
      if all == left + [f] {
        assert all == left + [f] + [] && left == left + [];
      } else {
        assert all == [] + [f] + left && left == [] + left;
      }
    }
  }

  /** The line depends only on the hands and the hand-offs. */
  lemma SameLine(s: State, t: State)
    requires Shaped(s) && Shaped(t) && CaptureHand(t.capture) == CaptureHand(s.capture)
    requires forall i :: 0 <= i < 4 ==> Hand(t.stages[i]) == Hand(s.stages[i]) && t.queues[i].items == s.queues[i].items
    ensures Line(t) == Line(s)
  {
    hide Flatten, Hand, CaptureHand;
    assert Segments(t) == Segments(s);
  }

  /** Capacity is kept when no hand-off changes, or only one that stays within its own. */
  lemma SameCapacity(c: Config, s: State, t: State, k: nat)
    requires c.Valid() && WithinCapacity(c, s) && Shaped(t) && k < 4
    requires t.queues == s.queues[k := t.queues[k]] && Bounded(c.PolicyOf(k), c.Capacity(k), t.queues[k])
    ensures WithinCapacity(c, t)
  {
    hide Config.Capacity;
  }

  /** A step of capture that leaves hands and hand-offs alone. */
  lemma CaptureStill(c: Config, s: State, t: State)
    requires c.Valid() && WithinCapacity(c, s)
    requires t.queues == s.queues && t.stages == s.stages && CaptureHand(t.capture) == CaptureHand(s.capture)
    ensures WithinCapacity(c, t) && Line(t) == Line(s)
  {
    hide Line, Bounded, Config.Capacity, CaptureHand;
    SameLine(s, t);
  }

  /** A step of stage i that leaves hands and hand-offs alone. */
  lemma StageStill(c: Config, s: State, i: nat, g: Stage)
    requires c.Valid() && WithinCapacity(c, s) && i < 4 && Hand(g) == Hand(s.stages[i])
    ensures WithinCapacity(c, SetStage(s, i, g)) && Line(SetStage(s, i, g)) == Line(s)
  {
    hide Line, Bounded, Config.Capacity, Hand;
    SameLine(s, SetStage(s, i, g));
  }

  /** Closing a hand-off moves no frame. */
  lemma CloseStill(c: Config, s: State, k: nat)
    requires c.Valid() && WithinCapacity(c, s) && k < 4
    ensures var t := CloseQueue(s, k);
      WithinCapacity(c, t) && Line(t) == Line(s) && t.capture == s.capture && t.stages == s.stages
  {
    hide Line, Config.Capacity;
    SameLine(s, CloseQueue(s, k));
    SameCapacity(c, s, CloseQueue(s, k), k);
  }

  lemma AbortStill(c: Config, s: State, k: nat)
    requires c.Valid() && WithinCapacity(c, s) && CanAbort(k)
    ensures var t := AbortStep(s, k);
      WithinCapacity(c, t) && Line(t) == Line(s) && t.capture == s.capture && t.stages == s.stages
  {
    hide Line, Bounded, Config.Capacity;
    if k >= 3 {
      CloseStill(c, s, k - 3);
    } else {
      SameLine(s, AbortStep(s, k));
    }
  }

  /** Stage i and its input hand-off change together. */
  lemma InputChange(s: State, t: State, i: nat, e: Effect)
    requires Shaped(s) && Shaped(t) && i < 4 && t.capture == s.capture && (e.Keeps? || e.Loses?)
    requires t.stages == s.stages[i := t.stages[i]] && t.queues == s.queues[i := t.queues[i]]
    requires Affects(Hand(s.stages[i]) + s.queues[i].items, e, Hand(t.stages[i]) + t.queues[i].items)
    ensures Affects(Line(s), e, Line(t))
  {
    hide Flatten, Hand, Affects;
    SegmentsOfStage(s, t, i);
    LocalEffect(Segments(s), 2 * (3 - i), Hand(t.stages[i]), t.queues[i].items, e);
  }

  /** Stage i and its output hand-off change together. */
  lemma OutputChange(s: State, t: State, i: nat, e: Effect)
    requires Shaped(s) && Shaped(t) && i < 3 && t.capture == s.capture && (e.Keeps? || e.Loses?)
    requires t.stages == s.stages[i := t.stages[i]] && t.queues == s.queues[i + 1 := t.queues[i + 1]]
    requires Affects(s.queues[i + 1].items + Hand(s.stages[i]), e, t.queues[i + 1].items + Hand(t.stages[i]))
    ensures Affects(Line(s), e, Line(t))
  {
    hide Flatten, Hand, Affects;
    SegmentsOfStage(s, t, i);
    LocalEffect(Segments(s), 2 * (3 - i) - 1, t.queues[i + 1].items, Hand(t.stages[i]), e);
  }

  /** Capture and the ingress change together. */
  lemma IngressChange(s: State, t: State, e: Effect)
    requires Shaped(s) && Shaped(t) && t.stages == s.stages && (e.Keeps? || e.Loses?)
    requires t.queues == s.queues[0 := t.queues[0]]
    requires Affects(s.queues[0].items + CaptureHand(s.capture), e, t.queues[0].items + CaptureHand(t.capture))
    ensures Affects(Line(s), e, Line(t))
  {
    hide Flatten, CaptureHand, Affects;
    SegmentsOfCapture(s, t);
    LocalEffect(Segments(s), 7, t.queues[0].items, CaptureHand(t.capture), e);
  }

  /** A frame enters at the camera end. */
  lemma EnterChange(s: State, t: State, f: Frame)
    requires Shaped(s) && Shaped(t) && t.stages == s.stages && t.queues == s.queues
    requires CaptureHand(s.capture) == [] && CaptureHand(t.capture) == [f]
    ensures Affects(Line(s), Enters(f), Line(t))
  {
    hide Flatten, CaptureHand, Affects;
    SegmentsOfCapture(s, t);
    var ss := Segments(s);
    assert ss[7 := ss[7]] == ss;
    LastEffect(ss, f);
  }

  /** A frame leaves at the sink end. */
  lemma SinkChange(s: State, t: State, f: Frame)
    requires Shaped(s) && Shaped(t) && t.capture == s.capture && t.queues == s.queues
    requires t.stages == s.stages[SINK := t.stages[SINK]]
    requires Hand(s.stages[SINK]) == [f] && Hand(t.stages[SINK]) == []
    ensures Affects(Line(s), Sinks(f), Line(t))
  {
    hide Flatten, Hand, Affects;
    SegmentsOfStage(s, t, SINK);
    var ss := Segments(s);
    assert ss[0 := []][1 := ss[1]] == ss[0 := []];
    FirstEffect(ss, f);
  }

  lemma TakenOut(f: Frame, rest: seq<Frame>)
    ensures Affects([f] + rest, Loses(f), [] + rest)
  {
    assert [f] + rest == [] + [f] + rest;
  }

  lemma CapturePushAffectsLine(c: Config, s: State, p: Push)
    requires c.Valid() && WithinCapacity(c, s) && s.capture == Pushing(p)
    requires CanPush(c.policy, c.Capacity(0), s.queues[0], p)
    ensures var t := CapturePush(c, s, p);
      WithinCapacity(c, t) && Affects(Line(s), EffectOfPush(c.policy, c.Capacity(0), s.queues[0], p), Line(t))
  {
    hide Config.Capacity, Line, Affects, ChangeOf, PushStep, InHand, EffectOfPush, Bounded;
    var t := CapturePush(c, s, p);
    PushAffects(c.policy, c.Capacity(0), s.queues[0], p);
    assert !p.Releasing? && !p.Returned?;
    IngressChange(s, t, EffectOfPush(c.policy, c.Capacity(0), s.queues[0], p));
    SameCapacity(c, s, t, 0);
  }

  lemma StagePopKeepsLine(c: Config, s: State, i: nat)
    requires c.Valid() && WithinCapacity(c, s) && i < 4 && s.stages[i].Pop?
    ensures WithinCapacity(c, StagePop(s, i)) && Line(StagePop(s, i)) == Line(s)
  {
    hide Config.Capacity, Line;
    var t, items := StagePop(s, i), s.queues[i].items;
    if |items| > 0 {
      assert [] + items == [items[0]] + items[1..];
      assert t.stages[i] == CheckAbort(items[0]) && t.queues[i].items == items[1..];
      SameCapacity(c, s, t, i);
      InputChange(s, t, i, Keeps);
    } else {
      StageStill(c, s, i, CloseOutput);
    }
  }

  lemma StageBodyAffectsLine(c: Config, s: State, i: nat, f: Frame, o: Outcome)
    requires c.Valid() && WithinCapacity(c, s) && i < 4 && s.stages[i] == Body(f)
    ensures var t := StageBody(s, i, f, o);
      && WithinCapacity(c, t)
      && Affects(Line(s), if o.Throws? then Loses(f) else if i == SINK then Sinks(f) else Keeps, Line(t))
  {
    hide Config.Capacity, Line, Bounded, Affects;
    var t := StageBody(s, i, f, o);
    if o.Throws? {
      TakenOut(f, s.queues[i].items);
      InputChange(s, t, i, Loses(f));
    } else if i == SINK {
      SinkChange(s, t, f);
    } else {
      StageStill(c, s, i, Handing(Checking(f)));
      Unaffected(Line(s));
    }
  }

  lemma StageAbandonAffectsLine(c: Config, s: State, i: nat, f: Frame)
    requires c.Valid() && WithinCapacity(c, s) && i < 4 && s.stages[i] == CheckAbort(f)
    ensures var t := SetStage(s, i, Release(f.id, false));
      WithinCapacity(c, t) && Affects(Line(s), Loses(f), Line(t))
  {
    hide Config.Capacity, Line, Bounded, Affects;
    TakenOut(f, s.queues[i].items);
    InputChange(s, SetStage(s, i, Release(f.id, false)), i, Loses(f));
  }

  lemma StagePushAffectsLine(c: Config, s: State, i: nat, p: Push)
    requires c.Valid() && WithinCapacity(c, s) && i < SINK && s.stages[i] == Handing(p)
    requires CanPush(c.PolicyOf(i + 1), c.Capacity(i + 1), s.queues[i + 1], p)
    ensures var t := StagePush(c, s, i, p);
      && WithinCapacity(c, t)
      && Affects(Line(s), EffectOfPush(c.PolicyOf(i + 1), c.Capacity(i + 1), s.queues[i + 1], p), Line(t))
  {
    hide Config.Capacity, Line, Affects, ChangeOf, PushStep, InHand, EffectOfPush, Bounded;
    var t := StagePush(c, s, i, p);
    PushAffects(c.PolicyOf(i + 1), c.Capacity(i + 1), s.queues[i + 1], p);
    assert !p.Releasing? && !p.Returned?;
    OutputChange(s, t, i, EffectOfPush(c.PolicyOf(i + 1), c.Capacity(i + 1), s.queues[i + 1], p));
    SameCapacity(c, s, t, i + 1);
  }

  lemma Unaffected(line: seq<Frame>)
    ensures Affects(line, Keeps, line)
  {
  }

  lemma CaptureCloseKeepsLine(c: Config, s: State, o: Outcome)
    requires c.Valid() && Shaped(s) && WithinCapacity(c, s) && CaptureEnabled(c, s, o)
    requires s.capture.Aborting? || s.capture.CloseIngress?
    ensures var t := CaptureStep(c, s, o); WithinCapacity(c, t) && Line(t) == Line(s)
  {
    hide Config.Capacity, Line, Bounded, AbortStep, CloseQueue, WithinCapacity, CapturePush, CaptureRead;
    var t := CaptureStep(c, s, o);
    if s.capture.Aborting? {
      AbortStill(c, s, s.capture.k);
      CaptureStill(c, AbortStep(s, s.capture.k), t);
    } else {
      CloseStill(c, s, 0);
      CaptureStill(c, CloseQueue(s, 0), t);
    }
  }

  lemma CapturePoolKeepsLine(c: Config, s: State, o: Outcome)
    requires c.Valid() && Shaped(s) && WithinCapacity(c, s) && CaptureEnabled(c, s, o)
    requires s.capture.Acquire? || s.capture.Dropped? || (s.capture.Reading? && !o.Returns?)
    ensures var t := CaptureStep(c, s, o); WithinCapacity(c, t) && Line(t) == Line(s)
  {
    hide Config.Capacity, Line, Bounded, AbortStep, CloseQueue, WithinCapacity, CapturePush;
    CaptureStill(c, s, CaptureStep(c, s, o));
  }

  /** Steps of capture other than reading and pushing: they touch no frame of the line. */
  lemma CaptureRestKeepsLine(c: Config, s: State, o: Outcome)
    requires c.Valid() && Shaped(s) && WithinCapacity(c, s) && CaptureEnabled(c, s, o)
    requires !s.capture.Pushing? && !(s.capture.Reading? && o.Returns?)
    ensures var t := CaptureStep(c, s, o); WithinCapacity(c, t) && Line(t) == Line(s)
  {
    hide Config.Capacity, Line, Bounded, AbortStep, CloseQueue, WithinCapacity, CapturePush, CaptureRead;
    var t := CaptureStep(c, s, o);
    match s.capture
    case Aborting(_) => CaptureCloseKeepsLine(c, s, o);
    case CloseIngress => CaptureCloseKeepsLine(c, s, o);
    case CheckStop => CaptureStill(c, s, t);
    case CheckAborted => CaptureStill(c, s, t);
    case CountDrop(result) => CaptureStill(c, s, t);
    case _ => CapturePoolKeepsLine(c, s, o);
  }

  lemma CaptureAffectsLine(c: Config, s: State, o: Outcome)
    requires c.Valid() && Shaped(s) && WithinCapacity(c, s) && CaptureEnabled(c, s, o)
    ensures var t := CaptureStep(c, s, o);
      WithinCapacity(c, t) && Affects(Line(s), EffectOf(c, s, CaptureMoves(o)), Line(t))
  {
    hide Config.Capacity, Line, Affects, Bounded, WithinCapacity, EffectOfPush, CapturePush, CanPush;
    Unaffected(Line(s));
    if s.capture.Pushing? {
      CapturePushingAffectsLine(c, s, s.capture.p);
    } else if s.capture.Reading? && o.Returns? {
      CaptureReadAffectsLine(c, s, s.capture.id);
    } else {
      CaptureRestKeepsLine(c, s, o);
    }
  }

  lemma CaptureReadAffectsLine(c: Config, s: State, id: nat)
    requires c.Valid() && WithinCapacity(c, s) && s.capture == Reading(id)
    ensures var t := CaptureRead(s, id, Returns);
      WithinCapacity(c, t) && Affects(Line(s), Enters(Frame(id, s.tally.nextSeq)), Line(t))
  {
    hide Config.Capacity, Line, Affects, Bounded;
    EnterChange(s, CaptureRead(s, id, Returns), Frame(id, s.tally.nextSeq));
  }

  lemma CapturePushingAffectsLine(c: Config, s: State, p: Push)
    requires c.Valid() && Shaped(s) && WithinCapacity(c, s) && s.capture == Pushing(p)
    requires p.Releasing? || p.Returned? || CanPush(c.policy, c.Capacity(0), s.queues[0], p)
    ensures var t := CapturePush(c, s, p);
      WithinCapacity(c, t) && Affects(Line(s), EffectOfPush(c.policy, c.Capacity(0), s.queues[0], p), Line(t))
  {
    hide Config.Capacity, Line, Affects, Bounded, WithinCapacity, EffectOfPush;
    if CanPush(c.policy, c.Capacity(0), s.queues[0], p) {
      CapturePushAffectsLine(c, s, p);
    } else {
      NoPushNoEffect(c.policy, c.Capacity(0), s.queues[0], p);
      Unaffected(Line(s));
      CaptureStill(c, s, CapturePush(c, s, p));
    }
  }

  lemma NoPushNoEffect(policy: Policy, capacity: nat, q: Queue, p: Push)
    requires !CanPush(policy, capacity, q, p)
    ensures EffectOfPush(policy, capacity, q, p) == Keeps
  {
  }

  /** Steps of a stage other than pop, check, body and push: they touch no frame of the line. */
  lemma StageRestKeepsLine(c: Config, s: State, i: nat, o: Outcome)
    requires c.Valid() && Shaped(s) && WithinCapacity(c, s) && i < 4 && StageEnabled(c, s, i)
    requires s.stages[i].CountDone? || s.stages[i].Release? || s.stages[i].CountDrop? || s.stages[i].Aborting?
      || s.stages[i].CloseOutput?
    ensures var t := StageStep(c, s, i, o); WithinCapacity(c, t) && Line(t) == Line(s)
  {
    hide Config.Capacity, Line, Bounded, AbortStep, CloseQueue, WithinCapacity, StagePop, StageBody,
      StagePush;
    var t, g := StageStep(c, s, i, o), s.stages[i];
    if g.Aborting? {
      AbortStill(c, s, g.k);
      StageStill(c, AbortStep(s, g.k), i, t.stages[i]);
    } else if g.CloseOutput? {
      if i < SINK {
        CloseStill(c, s, i + 1);
        StageStill(c, CloseQueue(s, i + 1), i, t.stages[i]);
      } else {
        StageStill(c, s, i, t.stages[i]);
      }
    } else {
      var u := s.(free := t.free, tally := t.tally);
      CaptureStill(c, s, u);
      StageStill(c, u, i, t.stages[i]);
    }
  }

  lemma StageHandingAffectsLine(c: Config, s: State, i: nat, p: Push)
    requires c.Valid() && Shaped(s) && WithinCapacity(c, s) && i < SINK && s.stages[i] == Handing(p)
    requires p.Releasing? || p.Returned? || CanPush(c.PolicyOf(i + 1), c.Capacity(i + 1), s.queues[i + 1], p)
    ensures var t := StagePush(c, s, i, p);
      && WithinCapacity(c, t)
      && Affects(Line(s), EffectOfPush(c.PolicyOf(i + 1), c.Capacity(i + 1), s.queues[i + 1], p), Line(t))
  {
    hide Config.Capacity, Line, Affects, Bounded, WithinCapacity, EffectOfPush;
    if CanPush(c.PolicyOf(i + 1), c.Capacity(i + 1), s.queues[i + 1], p) {
      StagePushAffectsLine(c, s, i, p);
    } else {
      NoPushNoEffect(c.PolicyOf(i + 1), c.Capacity(i + 1), s.queues[i + 1], p);
      Unaffected(Line(s));
      var t := StagePush(c, s, i, p);
      CaptureStill(c, s, s.(free := t.free));
      StageStill(c, s.(free := t.free), i, t.stages[i]);
    }
  }

  lemma StageAffectsLine(c: Config, s: State, i: nat, o: Outcome)
    requires c.Valid() && Shaped(s) && WithinCapacity(c, s) && i < 4 && StageEnabled(c, s, i)
    ensures var t := StageStep(c, s, i, o);
      WithinCapacity(c, t) && Affects(Line(s), EffectOf(c, s, StageMoves(i, o)), Line(t))
  {
    hide Config.Capacity, Line, Affects, Bounded, StagePop, StageBody, StagePush, WithinCapacity,
      AbortStep, CloseQueue, EffectOfPush, CanPush;
    Unaffected(Line(s));
    match s.stages[i]
    case Pop => StagePopKeepsLine(c, s, i);
    case Body(f) => StageBodyAffectsLine(c, s, i, f, o);
    case CheckAbort(f) =>
      if s.signals.aborted {
        StageAbandonAffectsLine(c, s, i, f);
      } else {
        StageStill(c, s, i, Body(f));
      }
    case Handing(p) => StageHandingAffectsLine(c, s, i, p);
    case _ => StageRestKeepsLine(c, s, i, o);
  }

  /** Every step of every thread has its effect on the line. */
  lemma StepAffectsLine(c: Config, s: State, e: Event)
    requires c.Valid() && WithinCapacity(c, s) && Enabled(c, s, e)
    ensures WithinCapacity(c, Step(c, s, e))
    ensures Affects(Line(s), EffectOf(c, s, e), Line(Step(c, s, e)))
  {
    hide Config.Capacity, Line, Affects, CaptureStep, StageStep, CaptureEnabled, StageEnabled, Bounded,
      CloseQueue;
    Unaffected(Line(s));
    match e
    case CaptureMoves(o) => CaptureAffectsLine(c, s, o);
    case StageMoves(i, o) => StageAffectsLine(c, s, i, o);
    case RequestStop => CaptureStill(c, s, Step(c, s, e));
    case RunCallback =>
      CloseStill(c, s, 0);
      CaptureStill(c, CloseQueue(s, 0), Step(c, s, e));
  }

  // ---------- order ----------

  /** The numbers of the frames that reached the sinks, then of those still under way, front to back. */
  ghost function Chain(s: State): seq<nat>
    requires Shaped(s)
  {
    s.history.delivered + Numbers(Line(s))
  }

  ghost function Numbers(fs: seq<Frame>): (r: seq<nat>)
    ensures |r| == |fs|
  {
    seq(|fs|, i requires 0 <= i < |fs| => fs[i].seqNo)
  }

  /** Increasing, and below `bound`. */
  ghost predicate Increasing(s: seq<nat>, bound: nat) {
    (forall i, j :: 0 <= i < j < |s| ==> s[i] < s[j]) && forall i :: 0 <= i < |s| ==> s[i] < bound
  }

  /** Frames are in the order they were captured, and all are older than the next to come. */
  ghost predicate InOrder(s: State)
    requires Shaped(s)
  {
    Increasing(Chain(s), s.tally.nextSeq)
  }

  lemma IncreasingWithout(a: seq<nat>, x: nat, b: seq<nat>, bound: nat)
    requires Increasing(a + [x] + b, bound)
    ensures Increasing(a + b, bound)
  {
    var s, t := a + [x] + b, a + b;
    assert forall i :: 0 <= i < |t| ==> t[i] == s[if i < |a| then i else i + 1];
  }

  lemma IncreasingWith(s: seq<nat>, bound: nat)
    requires Increasing(s, bound)
    ensures Increasing(s + [bound], bound + 1)
  {
  }

  /** Order survives each of the four effects. */
  lemma EffectKeepsOrder(s: State, t: State, x: Effect)
    requires Shaped(s) && Shaped(t) && InOrder(s) && Affects(Line(s), x, Line(t))
    requires t.history.delivered == if x.Sinks? then s.history.delivered + [x.f.seqNo] else s.history.delivered
    requires if x.Enters? then x.f.seqNo == s.tally.nextSeq && t.tally.nextSeq == s.tally.nextSeq + 1
      else t.tally.nextSeq == s.tally.nextSeq
    ensures InOrder(t)
  {
    hide Line, Increasing;
    match x
    case Keeps =>
    case Enters(f) =>
      assert Chain(t) == Chain(s) + [f.seqNo];
      IncreasingWith(Chain(s), s.tally.nextSeq);
    case Sinks(f) => assert Chain(t) == Chain(s);
    case Loses(f) =>
      var a, b :| Line(s) == a + [f] + b && Line(t) == a + b;
      assert Chain(s) == (s.history.delivered + Numbers(a)) + [f.seqNo] + Numbers(b);
      assert Chain(t) == (s.history.delivered + Numbers(a)) + Numbers(b);
      IncreasingWithout(s.history.delivered + Numbers(a), f.seqNo, Numbers(b), s.tally.nextSeq);
  }

  ghost predicate CountsEffect(s: State, x: Effect, t: State) {
    && t.history.delivered == (if x.Sinks? then s.history.delivered + [x.f.seqNo] else s.history.delivered)
    && (if x.Enters? then x.f.seqNo == s.tally.nextSeq && t.tally.nextSeq == s.tally.nextSeq + 1
        else t.tally.nextSeq == s.tally.nextSeq)
  }

  lemma PushNeverEnters(policy: Policy, capacity: nat, q: Queue, p: Push)
    ensures var x := EffectOfPush(policy, capacity, q, p); !x.Enters? && !x.Sinks?
  {
  }

  lemma CapturePushCounts(c: Config, s: State, p: Push)
    requires c.Valid() && Shaped(s)
    requires p.Releasing? || p.Returned? || CanPush(c.policy, c.Capacity(0), s.queues[0], p)
    ensures CountsEffect(s, EffectOfPush(c.policy, c.Capacity(0), s.queues[0], p), CapturePush(c, s, p))
  {
    hide Config.Capacity, EffectOfPush, CanPush, PushStep;
    PushNeverEnters(c.policy, c.Capacity(0), s.queues[0], p);
    if p.Releasing? {} else if p.Returned? { if p.result.Closed? {} } else {}
  }

  lemma CaptureQuietCounts(c: Config, s: State, o: Outcome)
    requires c.Valid() && Shaped(s) && CaptureEnabled(c, s, o)
    requires !s.capture.Pushing? && !s.capture.Reading?
    ensures CaptureStep(c, s, o).history.delivered == s.history.delivered
    ensures CaptureStep(c, s, o).tally.nextSeq == s.tally.nextSeq
  {
    hide Config.Capacity, CanPush, AbortStep, CloseQueue, CapturePush, CaptureRead;
    match s.capture
    case Aborting(k) => AbortOnlySignals(s, k);
    case CloseIngress => CloseOnlyCloses(s, 0);
    case Acquire => if |s.free| > 0 {} else {}
    case CheckStop =>
    case CheckAborted =>
    case Dropped(id, thrown) =>
    case CountDrop(result) =>
  }

  lemma CaptureCounts(c: Config, s: State, o: Outcome)
    requires c.Valid() && Shaped(s) && CaptureEnabled(c, s, o)
    ensures CountsEffect(s, EffectOf(c, s, CaptureMoves(o)), CaptureStep(c, s, o))
  {
    hide Config.Capacity, EffectOfPush, CanPush, AbortStep, CloseQueue, CapturePush;
    if s.capture.Pushing? {
      CapturePushCounts(c, s, s.capture.p);
    } else if s.capture.Reading? {
      if o.Returns? {} else if o.Ends? {} else {}
    } else {
      CaptureQuietCounts(c, s, o);
    }
  }

  lemma StagePushCounts(c: Config, s: State, i: nat, p: Push)
    requires c.Valid() && Shaped(s) && i < SINK
    requires p.Releasing? || p.Returned? || CanPush(c.PolicyOf(i + 1), c.Capacity(i + 1), s.queues[i + 1], p)
    ensures CountsEffect(s, EffectOfPush(c.PolicyOf(i + 1), c.Capacity(i + 1), s.queues[i + 1], p),
      StagePush(c, s, i, p))
  {
    hide Config.Capacity, EffectOfPush, CanPush, PushStep;
    PushNeverEnters(c.PolicyOf(i + 1), c.Capacity(i + 1), s.queues[i + 1], p);
    if p.Releasing? {} else if p.Returned? {} else {}
  }

  lemma StageQuietCounts(c: Config, s: State, i: nat, o: Outcome)
    requires c.Valid() && Shaped(s) && i < 4 && StageEnabled(c, s, i)
    requires !s.stages[i].Handing? && !s.stages[i].Body?
    ensures StageStep(c, s, i, o).history.delivered == s.history.delivered
    ensures StageStep(c, s, i, o).tally.nextSeq == s.tally.nextSeq
  {
    hide Config.Capacity, CanPush, AbortStep, CloseQueue, StagePush, StageBody;
    match s.stages[i]
    case Aborting(k) => AbortOnlySignals(s, k);
    case CloseOutput =>
      if i < SINK {
        CloseOnlyCloses(s, i + 1);
      }
    case Pop => if |s.queues[i].items| > 0 {} else {}
    case CheckAbort(f) =>
    case CountDone(f) =>
    case Release(id, thrown) =>
    case CountDrop(result) =>
  }

  lemma StageCounts(c: Config, s: State, i: nat, o: Outcome)
    requires c.Valid() && Shaped(s) && i < 4 && StageEnabled(c, s, i)
    ensures CountsEffect(s, EffectOf(c, s, StageMoves(i, o)), StageStep(c, s, i, o))
  {
    hide Config.Capacity, EffectOfPush, CanPush, AbortStep, CloseQueue, StagePush, StagePop;
    if s.stages[i].Handing? {
      StagePushCounts(c, s, i, s.stages[i].p);
    } else if s.stages[i].Body? {
      if o.Throws? {} else if i == SINK {} else {}
    } else {
      StageQuietCounts(c, s, i, o);
    }
  }

  /** Only capture numbers frames, and only the sink delivers them. */
  lemma StepCounts(c: Config, s: State, e: Event)
    requires c.Valid() && Shaped(s) && Enabled(c, s, e)
    ensures CountsEffect(s, EffectOf(c, s, e), Step(c, s, e))
  {
    hide Config.Capacity, CaptureStep, StageStep, CaptureEnabled, StageEnabled, CountsEffect;
    match e
    case CaptureMoves(o) => CaptureCounts(c, s, o);
    case StageMoves(i, o) => StageCounts(c, s, i, o);
    case _ => CallbackCounts(c, s, e);
  }

  lemma CallbackCounts(c: Config, s: State, e: Event)
    requires c.Valid() && Shaped(s) && Enabled(c, s, e) && (e.RequestStop? || e.RunCallback?)
    ensures CountsEffect(s, Keeps, Step(c, s, e))
  {
  }

  // ---------- conservation ----------

  /** Which frames to count. */
  datatype Which = One(id: nat) | All

  function Has(place: Option<nat>, w: Which): nat {
    if place.Some? && (w.All? || place.value == w.id) then 1 else 0
  }

  ghost function LimboCount(stages: seq<Stage>, w: Which): nat
    requires |stages| == 4
  {
    Has(Limbo(stages[0]), w) + Has(Limbo(stages[1]), w) + Has(Limbo(stages[2]), w) + Has(Limbo(stages[3]), w)
  }

  lemma LimboUpdate(stages: seq<Stage>, i: nat, g: Stage, w: Which)
    requires |stages| == 4 && i < 4
    ensures LimboCount(stages[i := g], w) == LimboCount(stages, w) - Has(Limbo(stages[i]), w) + Has(Limbo(g), w)
  {
    hide Limbo;
  }

  /** How many of the frames in question are in the pool, or on their way to or from it. */
  ghost function Away(s: State, w: Which): nat
    requires Shaped(s)
  {
    Copies(s.free, w) + Has(CaptureLimbo(s.capture), w) + LimboCount(s.stages, w)
  }

  ghost function Copies(free: seq<nat>, w: Which): nat {
    if w.All? then |free| else multiset(free)[w.id]
  }

  ghost function InLine(fs: seq<Frame>, w: Which): nat {
    if |fs| == 0 then 0 else Has(Some(fs[0].id), w) + InLine(fs[1..], w)
  }

  lemma {:induction false} InLineConcat(a: seq<Frame>, b: seq<Frame>, w: Which)
    ensures InLine(a + b, w) == InLine(a, w) + InLine(b, w)
  {
    if |a| == 0 {
      assert a + b == b;
    } else {
      assert (a + b)[1..] == a[1..] + b;
      InLineConcat(a[1..], b, w);
    }
  }

  /** What an effect takes off the line it must put elsewhere. */
  ghost function Surplus(x: Effect, w: Which): int {
    match x
    case Keeps => 0
    case Loses(f) => Has(Some(f.id), w)
    case Enters(f) => 0 - Has(Some(f.id), w) as int
    case Sinks(f) => Has(Some(f.id), w)
  }

  lemma EffectOnCount(s: seq<Frame>, x: Effect, t: seq<Frame>, w: Which)
    requires Affects(s, x, t)
    ensures InLine(t, w) == InLine(s, w) - Surplus(x, w)
  {
    match x
    case Keeps =>
    case Enters(f) =>
      InLineConcat(s, [f], w);
    case Sinks(f) =>
      assert s[1..] == t;
    case Loses(f) =>
      var a, b :| s == a + [f] + b && t == a + b;
      InLineConcat(a + [f], b, w);
      InLineConcat(a, [f], w);
      InLineConcat(a, b, w);
  }

  /** Every frame of the pool is in exactly one place: free, on its way, in a hand or in a hand-off. */
  ghost predicate Conserved(c: Config, s: State)
    requires c.Valid() && Shaped(s)
  {
    forall w :: Accounted(c, s, w)
  }

  ghost function Total(c: Config, w: Which): nat
    requires c.Valid()
  {
    if w.All? then c.Frames() else if w.id < c.Frames() then 1 else 0
  }

  ghost predicate Accounted(c: Config, s: State, w: Which)
    requires c.Valid() && Shaped(s)
  {
    Away(s, w) + InLine(Line(s), w) == Total(c, w)
  }

  // ---------- conservation, step by step ----------

  /** What leaves the line arrives in the pool or on its way there, and the other way round. */
  ghost predicate Balances(s: State, x: Effect, t: State, w: Which)
    requires Shaped(s) && Shaped(t)
  {
    Away(t, w) == Away(s, w) + Surplus(x, w)
  }

  lemma FreeGains(free: seq<nat>, x: nat, w: Which)
    ensures Copies(free + [x], w) == Copies(free, w) + Has(Some(x), w)
  {
  }

  lemma FreeYields(free: seq<nat>, w: Which)
    requires |free| > 0
    ensures Copies(free, w) == Copies(free[..|free| - 1], w) + Has(Some(free[|free| - 1]), w)
  {
    assert free == free[..|free| - 1] + [free[|free| - 1]];
  }

  /** A push that loses a frame is then about to release it. */
  lemma PushBalances(policy: Policy, capacity: nat, q: Queue, p: Push, w: Which)
    requires CanPush(policy, capacity, q, p) && Bounded(policy, capacity, q)
    ensures var (_, next) := PushStep(policy, capacity, q, p);
      Has(Dropping(next), w) == Has(Dropping(p), w) + Surplus(EffectOfPush(policy, capacity, q, p), w)
  {
    PushKeepsOrLoses(policy, capacity, q, p);
  }

  lemma CapturePushBalances(c: Config, s: State, p: Push, w: Which)
    requires c.Valid() && Shaped(s) && WithinCapacity(c, s) && s.capture == Pushing(p)
    requires p.Releasing? || p.Returned? || CanPush(c.policy, c.Capacity(0), s.queues[0], p)
    ensures Shaped(CapturePush(c, s, p))
    ensures Balances(s, EffectOfPush(c.policy, c.Capacity(0), s.queues[0], p), CapturePush(c, s, p), w)
  {
    hide Config.Capacity, LimboCount, Copies, EffectOfPush, PushStep, Bounded;
    if CanPush(c.policy, c.Capacity(0), s.queues[0], p) {
      PushBalances(c.policy, c.Capacity(0), s.queues[0], p, w);
    } else {
      NoPushNoEffect(c.policy, c.Capacity(0), s.queues[0], p);
      if p.Releasing? {
        FreeGains(s.free, p.id, w);
      }
    }
  }

  lemma CaptureBalances(c: Config, s: State, o: Outcome, w: Which)
    requires c.Valid() && Shaped(s) && WithinCapacity(c, s) && CaptureEnabled(c, s, o)
    ensures Shaped(CaptureStep(c, s, o))
    ensures Balances(s, EffectOf(c, s, CaptureMoves(o)), CaptureStep(c, s, o), w)
  {
    hide Config.Capacity, LimboCount, Copies, EffectOfPush, CanPush, CapturePush, WithinCapacity,
      AbortStep, CloseQueue;
    match s.capture
    case Pushing(p) => CapturePushBalances(c, s, p, w);
    case Acquire =>
      if |s.free| > 0 {
        FreeYields(s.free, w);
      }
    case Dropped(x, _) => FreeGains(s.free, x, w);
    case Aborting(k) => AbortOnlySignals(s, k);
    case CloseIngress => CloseOnlyCloses(s, 0);
    case Reading(_) => if o.Returns? {} else if o.Ends? {} else {}
    case CheckStop =>
    case CheckAborted =>
    case CountDrop(_) =>
  }

  lemma StagePushBalances(c: Config, s: State, i: nat, p: Push, w: Which)
    requires c.Valid() && Shaped(s) && WithinCapacity(c, s) && i < SINK && s.stages[i] == Handing(p)
    requires p.Releasing? || p.Returned? || CanPush(c.PolicyOf(i + 1), c.Capacity(i + 1), s.queues[i + 1], p)
    ensures Shaped(StagePush(c, s, i, p))
    ensures Balances(s, EffectOfPush(c.PolicyOf(i + 1), c.Capacity(i + 1), s.queues[i + 1], p),
      StagePush(c, s, i, p), w)
  {
    hide Config.Capacity, LimboCount, Copies, EffectOfPush, PushStep, Bounded;
    LimboUpdate(s.stages, i, StagePush(c, s, i, p).stages[i], w);
    if CanPush(c.PolicyOf(i + 1), c.Capacity(i + 1), s.queues[i + 1], p) {
      PushBalances(c.PolicyOf(i + 1), c.Capacity(i + 1), s.queues[i + 1], p, w);
    } else {
      NoPushNoEffect(c.PolicyOf(i + 1), c.Capacity(i + 1), s.queues[i + 1], p);
      if p.Releasing? {
        FreeGains(s.free, p.id, w);
      }
    }
  }

  lemma OneStageMoves(c: Config, s: State, i: nat, o: Outcome)
    requires c.Valid() && Shaped(s) && i < 4 && StageEnabled(c, s, i)
    ensures var t := StageStep(c, s, i, o);
      Shaped(t) && t.capture == s.capture && t.stages == s.stages[i := t.stages[i]]
  {
    hide Config.Capacity, CanPush, AbortStep, CloseQueue, PushStep;
    match s.stages[i]
    case Aborting(k) => AbortOnlySignals(s, k);
    case CloseOutput =>
      if i < SINK {
        CloseOnlyCloses(s, i + 1);
      }
    case Pop => if |s.queues[i].items| > 0 {} else {}
    case Body(_) => if o.Throws? {} else if i == SINK {} else {}
    case Handing(p) => if p.Releasing? {} else if p.Returned? {} else {}
    case _ =>
  }

  lemma StageBalances(c: Config, s: State, i: nat, o: Outcome, w: Which)
    requires c.Valid() && Shaped(s) && WithinCapacity(c, s) && i < 4 && StageEnabled(c, s, i)
    ensures Shaped(StageStep(c, s, i, o))
    ensures Balances(s, EffectOf(c, s, StageMoves(i, o)), StageStep(c, s, i, o), w)
  {
    hide Config.Capacity, LimboCount, Copies, EffectOfPush, CanPush, StagePush, WithinCapacity,
      AbortStep, CloseQueue;
    var t := StageStep(c, s, i, o);
    OneStageMoves(c, s, i, o);
    LimboUpdate(s.stages, i, t.stages[i], w);
    match s.stages[i]
    case Handing(p) => StagePushBalances(c, s, i, p, w);
    case Release(x, _) => FreeGains(s.free, x, w);
    case Aborting(k) => AbortOnlySignals(s, k);
    case CloseOutput =>
      if i < SINK {
        CloseOnlyCloses(s, i + 1);
      }
    case Pop => if |s.queues[i].items| > 0 {} else {}
    case CheckAbort(_) => if s.signals.aborted {} else {}
    case Body(_) => if o.Throws? {} else if i == SINK {} else {}
    case CountDone(_) =>
    case CountDrop(_) =>
  }

  /** Every step keeps every frame accounted for. */
  lemma StepKeepsAccounted(c: Config, s: State, e: Event, w: Which)
    requires c.Valid() && Shaped(s) && WithinCapacity(c, s) && Enabled(c, s, e) && Accounted(c, s, w)
    ensures Shaped(Step(c, s, e)) && Accounted(c, Step(c, s, e), w)
  {
    hide Config.Capacity, Config.Frames, Line, Affects, Away, CaptureStep, StageStep, CaptureEnabled,
      StageEnabled, WithinCapacity;
    StepBalances(c, s, e, w);
    StepAffectsLine(c, s, e);
    EffectOnCount(Line(s), EffectOf(c, s, e), Line(Step(c, s, e)), w);
  }

  lemma StepBalances(c: Config, s: State, e: Event, w: Which)
    requires c.Valid() && Shaped(s) && WithinCapacity(c, s) && Enabled(c, s, e)
    ensures Shaped(Step(c, s, e)) && Balances(s, EffectOf(c, s, e), Step(c, s, e), w)
  {
    hide Config.Capacity, CaptureStep, StageStep, CaptureEnabled, StageEnabled, WithinCapacity, CloseQueue;
    match e
    case CaptureMoves(o) => CaptureBalances(c, s, o, w);
    case StageMoves(i, o) => StageBalances(c, s, i, o, w);
    case RequestStop =>
    case RunCallback => CloseOnlyCloses(s, 0);
  }

  // ---------- the frame invariant ----------

  /** Capacity, order and conservation: these hold in every run, with or without failures. */
  ghost predicate FramesInv(c: Config, s: State)
    requires c.Valid()
  {
    WithinCapacity(c, s) && InOrder(s) && Conserved(c, s)
  }

  lemma InitFrames(c: Config)
    requires c.Valid()
    ensures FramesInv(c, Init(c))
  {
    hide Config.Capacity, Config.Frames, Copies, Line, Accounted;
    NothingInLine(c);
    forall w ensures Accounted(c, Init(c), w) {
      AllFree(c, w);
    }
  }

  lemma NothingInLine(c: Config)
    requires c.Valid()
    ensures Line(Init(c)) == []
  {
    hide Config.Capacity, Config.Frames;
    forall k | 0 <= k < 9 ensures Segment(Init(c), k) == [] {}
    EmptyLine(Segments(Init(c)));
  }

  lemma AllFree(c: Config, w: Which)
    requires c.Valid()
    ensures Accounted(c, Init(c), w)
  {
    hide Config.Capacity, Config.Frames, Copies, Line;
    NothingInLine(c);
    IdsCopies(c.Frames(), w);
  }

  lemma {:induction false} EmptyLine(ss: seq<seq<Frame>>)
    requires forall k :: 0 <= k < |ss| ==> ss[k] == []
    ensures Flatten(ss) == []
  {
    if |ss| > 0 {
      EmptyLine(ss[1..]);
    }
  }

  lemma {:induction false} IdsCopies(n: nat, w: Which)
    ensures Copies(Ids(n), w) == if w.All? then n else if w.id < n then 1 else 0
  {
    if n > 0 {
      assert Ids(n) == Ids(n - 1) + [n - 1];
      IdsCopies(n - 1, w);
      FreeGains(Ids(n - 1), n - 1, w);
    }
  }

  /** Every step keeps capacity, order and conservation. */
  lemma StepKeepsFrames(c: Config, s: State, e: Event)
    requires c.Valid() && FramesInv(c, s) && Enabled(c, s, e)
    ensures FramesInv(c, Step(c, s, e))
  {
    hide Config.Capacity, Config.Frames, Line, Affects, Step, Enabled, Accounted, InOrder, EffectOf;
    var t := Step(c, s, e);
    StepAffectsLine(c, s, e);
    StepCounts(c, s, e);
    EffectKeepsOrder(s, t, EffectOf(c, s, e));
    forall w ensures Accounted(c, t, w) {
      StepKeepsAccounted(c, s, e, w);
    }
  }

  /** In every run frames stay in order, and every frame of the pool is in exactly one place. */
  lemma {:induction false} RunKeepsFrames(c: Config, s: State, es: seq<Event>)
    requires c.Valid() && FramesInv(c, s) && Follows(c, s, es)
    ensures FramesInv(c, Run(c, s, es))
    decreases |es|
  {
    hide FramesInv, Step, Enabled, Config.Capacity;
    if es != [] {
      StepKeepsFrames(c, s, es[0]);
      RunKeepsFrames(c, Step(c, s, es[0]), es[1..]);
    }
  }

  // ---------- consequences ----------

  /** The sinks see strictly increasing frame numbers, in every run. */
  lemma SinksSeeIncreasing(c: Config, es: seq<Event>)
    requires c.Valid() && Follows(c, Init(c), es)
    ensures Increasing(Run(c, Init(c), es).history.delivered, Run(c, Init(c), es).tally.nextSeq)
  {
    hide Step, Enabled, Line, Config.Capacity, Config.Frames, Accounted;
    InitFrames(c);
    RunKeepsFrames(c, Init(c), es);
    var t := Run(c, Init(c), es);
    assert forall i :: 0 <= i < |t.history.delivered| ==> t.history.delivered[i] == Chain(t)[i];
  }

  lemma {:induction false} InLineAll(fs: seq<Frame>)
    ensures InLine(fs, All) == |fs|
  {
    if |fs| > 0 {
      InLineAll(fs[1..]);
    }
  }

  /** A segment holds at most one frame if it is a hand, and at most the capacity if it is a hand-off. */
  ghost function MostOut(c: Config): nat
    requires c.Valid()
  {
    c.Capacity(0) + c.Capacity(1) + c.Capacity(2) + c.Capacity(3) + 4
  }

  lemma LineBySegments(s: State)
    requires Shaped(s)
    ensures |Line(s)| ==
      |CaptureHand(s.capture)| +
      |Hand(s.stages[0])| + |Hand(s.stages[1])| + |Hand(s.stages[2])| + |Hand(s.stages[3])| +
      |s.queues[0].items| + |s.queues[1].items| + |s.queues[2].items| + |s.queues[3].items|
  {
    hide Hand, CaptureHand;
    var ss := Segments(s);
    FlattenSize(ss, 0);
    FlattenSize(ss, 1);
    FlattenSize(ss, 2);
    FlattenSize(ss, 3);
    FlattenSize(ss, 4);
    FlattenSize(ss, 5);
    FlattenSize(ss, 6);
    FlattenSize(ss, 7);
    FlattenSize(ss, 8);
    assert ss[0..] == ss && ss[9..] == [];
  }

  lemma FlattenSize(ss: seq<seq<Frame>>, k: nat)
    requires k < |ss|
    ensures |Flatten(ss[k..])| == |ss[k]| + |Flatten(ss[k + 1..])|
  {
    assert ss[k..][1..] == ss[k + 1..];
  }

  lemma OneFrameEach(g: Stage)
    ensures |Hand(g)| + Has(Limbo(g), All) <= 1
  {
  }

  /** While capture holds no frame, at most `MostOut` frames are outside the pool. */
  lemma FramesOut(c: Config, s: State)
    requires c.Valid() && FramesInv(c, s)
    requires CaptureHand(s.capture) == [] && CaptureLimbo(s.capture) == None
    ensures |s.free| + MostOut(c) >= c.Frames()
  {
    hide Config.Capacity, Config.Frames, Line, Hand, Limbo, InOrder;
    assert Accounted(c, s, All);
    InLineAll(Line(s));
    LineBySegments(s);
    OneFrameEach(s.stages[0]);
    OneFrameEach(s.stages[1]);
    OneFrameEach(s.stages[2]);
    OneFrameEach(s.stages[3]);
    CapacityPositive(c);
  }

  lemma CapacityPositive(c: Config)
    requires c.Valid()
    ensures forall k: nat :: c.Capacity(k) >= 1
  {
    forall k: nat ensures c.Capacity(k) >= 1 {
      if !c.policy.Latest? {
        CapacityBounds(BitCeil(if k == 0 then c.ingressCapacity else c.stageCapacity));
      }
    }
  }

  /** A pool is never empty to begin with. */
  lemma FramesPositive(c: Config)
    requires c.Valid()
    ensures c.Frames() >= 1
  {
    hide BitCeil;
  }

  /** With the derived pool size, capture always finds a free frame. */
  lemma AcquireNeverWaits(c: Config, s: State)
    requires c.Valid() && FramesInv(c, s) && c.poolSize == 0 && s.capture.Acquire?
    ensures |s.free| > 0
  {
    hide FramesInv;
    FramesOut(c, s);
  }

  /** What destroying the hand-offs does: the frames left in them go back to the pool. */
  ghost function DestroyQueues(s: State): seq<nat>
    requires Shaped(s)
  {
    s.free + IdsOf(Line(s))
  }

  ghost function IdsOf(fs: seq<Frame>): seq<nat> {
    if |fs| == 0 then [] else [fs[0].id] + IdsOf(fs[1..])
  }

  lemma {:induction false} CopiesOfLine(free: seq<nat>, fs: seq<Frame>, w: Which)
    ensures Copies(free + IdsOf(fs), w) == Copies(free, w) + InLine(fs, w)
    decreases |fs|
  {
    if |fs| == 0 {
      assert free + IdsOf(fs) == free;
    } else {
      assert free + IdsOf(fs) == (free + [fs[0].id]) + IdsOf(fs[1..]);
      CopiesOfLine(free + [fs[0].id], fs[1..], w);
      FreeGains(free, fs[0].id, w);
    }
  }

  /**
    When all threads have exited, only the hand-offs can still hold frames; once those are
    destroyed the pool has every frame back, each exactly once.
   */
  lemma AllFramesComeBack(c: Config, s: State)
    requires c.Valid() && FramesInv(c, s) && AllExited(s)
    ensures forall w :: Copies(DestroyQueues(s), w) == Total(c, w)
    ensures |Line(s)| == |s.queues[0].items| + |s.queues[1].items| + |s.queues[2].items| + |s.queues[3].items|
  {
    hide Config.Capacity, Config.Frames, Line, InOrder, Total, Copies;
    LineBySegments(s);
    forall w ensures Copies(DestroyQueues(s), w) == Total(c, w) {
      assert Accounted(c, s, w);
      CopiesOfLine(s.free, Line(s), w);
    }
  }
}
