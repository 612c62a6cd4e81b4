/**
  Rings and mailboxes answer. Whenever the abstract hand-off could serve a push or a pop that is
  under way, some thread of the ring or mailbox can move, or a wake-up is pending; and only so many
  steps can be taken, in any order, before one of them shows something. Calls and closes by others
  are not needed for that.
 */
module HandOffProgress {
  import opened HandOff
  import opened HandOffRefinement
  import Ring = SpscRing
  import Mailbox = LatestSlot
  import Words

  /** The push has room, or need not wait for it; or the pop has a frame to take, or an end to report. */
  ghost predicate CanServe(policy: Policy, capacity: nat, h: System, popping: bool) {
    || (h.push.Some? && InHand(h.push.value) != [] && (!policy.Block? || !Full(policy, capacity, h.q) || h.q.closed))
    || (popping && (h.q.items != [] || h.q.closed))
  }

  // ---------- over a ring ----------

  /** A pop has been called, and has not shown its answer yet. */
  predicate RingPops(c: Ring.Consumer) {
    !c.CIdle? && !c.CEnd? && !c.CBump? && !c.CNotify?
  }

  /** Nobody calls anything new. */
  predicate RingCall(e: Ring.Event) {
    e.CallTryPush? || e.CallPush? || e.CallPop? || e.CallClose?
  }

  ghost predicate RingQuiet(s: Ring.Ring, e: Ring.Event) {
    Ring.Ready(s, e) && !RingCall(e) && Ring.Observe(s, e) == Ring.Silent
  }

  /**
    How many steps a producer can take before it shows something: it goes round once more if
    `popped` has moved on since it looked.
   */
  function ProducerRank(p: Ring.Producer, popped: nat): nat {
    match p
    case PIdle => 0
    case PClosedOnce(_) => 6
    case PEpoch(_) => 7
    case PClosed(_, seen) => if seen == popped then 6 else 12
    case PCheck(_, call) => if call.Once? || call.seen == popped then 5 else 11
    case PLoadHead(_, call) => if call.Once? || call.seen == popped then 4 else 10
    case PWrite(_) => 3
    case PPublish(_) => 2
    case PBump => 12
    case PNotify => 2
    case PWait(_, seen) => if seen == popped then 2 else 8
    case PParked(_, seen) => if seen == popped then 1 else 8
  }

  function ConsumerRank(c: Ring.Consumer, pushed: nat): nat {
    match c
    case CIdle => 0
    case CEnd => 0
    case CEpoch => 9
    case CCheck(pop) => if pop.Final? then 5 else if pop.seen == pushed then 8 else 13
    case CLoadTail(pop) => if pop.Final? then 4 else if pop.seen == pushed then 7 else 12
    case CRead => 3
    case CPublish(_) => 2
    case CBump => 10
    case CNotify => 2
    case CClosed(seen) => if seen == pushed then 6 else 11
    case CWait(seen) => if seen == pushed then 2 else 10
    case CParked(seen) => if seen == pushed then 1 else 10
  }

  function ClosersRank(k: Ring.Closers): nat {
    22 * k.bumpPushed + 12 * k.notifyPushed + 10 * k.bumpPopped + 2 * k.notifyPopped
  }

  function RingRank(s: Ring.Ring): nat {
    ProducerRank(s.producer, s.popped) + ConsumerRank(s.consumer, s.pushed) + ClosersRank(s.closers)
  }

  /** A bump of an epoch sends those who wait for it round once more, and a notification wakes them. */
  lemma BumpsRaiseLittle(p: Ring.Producer, popped: nat, c: Ring.Consumer, pushed: nat)
    ensures ProducerRank(p, popped + 1) <= ProducerRank(p, popped) + 7
    ensures ConsumerRank(c, pushed + 1) <= ConsumerRank(c, pushed) + 9
    ensures ProducerRank(Ring.WakeProducer(p), popped) <= ProducerRank(p, popped) + 1
    ensures ConsumerRank(Ring.WakeConsumer(c), pushed) <= ConsumerRank(c, pushed) + 1
  {
  }

  lemma QuietProducerLowersRank(s: Ring.Ring)
    requires RingQuiet(s, Ring.ProducerMoves)
    ensures RingRank(Ring.ProducerStep(s)) < RingRank(s)
  {
    hide Words.Sub, Words.Wrap, Words.Slot, ClosersRank, ConsumerRank, Ring.WakeConsumer;
    BumpsRaiseLittle(s.producer, s.popped, s.consumer, s.pushed);
  }

  lemma QuietConsumerLowersRank(s: Ring.Ring)
    requires RingQuiet(s, Ring.ConsumerMoves)
    ensures RingRank(Ring.ConsumerStep(s)) < RingRank(s)
  {
    hide Words.Sub, Words.Wrap, Words.Slot, ClosersRank, ProducerRank, Ring.WakeProducer;
    BumpsRaiseLittle(s.producer, s.popped, s.consumer, s.pushed);
    match s.consumer
    case CBump =>
    case CNotify =>
    case CLoadTail(pop) => if pop.First? {} else {}
    case CCheck(pop) => if pop.First? {} else {}
    case _ =>
  }

  /** Every step that shows nothing lowers the rank, whoever takes it. */
  lemma QuietStepLowersRank(s: Ring.Ring, e: Ring.Event)
    requires RingQuiet(s, e)
    ensures RingRank(Ring.Step(s, e)) < RingRank(s)
  {
    hide Ring.ProducerStep, Ring.ConsumerStep, ProducerRank, ConsumerRank, Ring.WakeProducer, Ring.WakeConsumer;
    BumpsRaiseLittle(s.producer, s.popped, s.consumer, s.pushed);
    match e
    case ProducerMoves => QuietProducerLowersRank(s);
    case ConsumerMoves => QuietConsumerLowersRank(s);
    case _ =>
  }

  /** A schedule of steps that show nothing. */
  ghost predicate RingQuietRun(s: Ring.Ring, es: seq<Ring.Event>)
    decreases |es|
  {
    es == [] || (RingQuiet(s, es[0]) && RingQuietRun(Ring.Step(s, es[0]), es[1..]))
  }

  ghost function RingAfter(s: Ring.Ring, es: seq<Ring.Event>): Ring.Ring
    requires RingQuietRun(s, es)
    decreases |es|
  {
    if es == [] then s else RingAfter(Ring.Step(s, es[0]), es[1..])
  }

  /** No schedule shows nothing for longer than the rank. */
  lemma {:induction false} RingQuietRunsAreBounded(s: Ring.Ring, es: seq<Ring.Event>)
    requires RingQuietRun(s, es)
    ensures |es| + RingRank(RingAfter(s, es)) <= RingRank(s)
    decreases |es|
  {
    hide RingRank, RingQuiet, Ring.Step;
    if es != [] {
      QuietStepIsQuiet(s, es[0]);
      QuietStepLowersRank(s, es[0]);
      RingQuietRunsAreBounded(Ring.Step(s, es[0]), es[1..]);
    }
  }

  lemma QuietStepIsQuiet(s: Ring.Ring, e: Ring.Event)
    requires RingQuiet(s, e)
    ensures Ring.Ready(s, e)
  {
  }

  /** A push or a pop is under way, and nothing it has to wait for is missing. */
  ghost predicate RingServes(s: Ring.Ring) {
    || (Looks(s.producer) && (s.producer.PClosedOnce? || |s.pushLog| < |s.popLog| + s.capacity || s.closed))
    || ((s.producer.PCheck? || s.producer.PLoadHead?)
        && (s.producer.call.Once? || |s.pushLog| < |s.popLog| + s.capacity || s.closed))
    || s.producer.PWrite? || s.producer.PPublish?
    || (RingPops(s.consumer) && (|s.popLog| < |s.pushLog| || s.closed))
  }

  /** Nothing the hand-off can serve is stuck: somebody can move, were it only to wake somebody else. */
  lemma ServedCanMove(s: Ring.Ring) returns (e: Ring.Event)
    requires Ring.Inv(s) && RingServes(s)
    ensures Ring.Ready(s, e) && !RingCall(e)
  {
    hide Ring.Counters, Ring.Contents, Ring.ConsumerWaits, Ring.ProducerWaits, Ring.ClosedLedger, Ring.Ready;
    Ring.NoLostWakeup(s);
    var k := s.closers;
    e := if !s.producer.PIdle? && !s.producer.PParked? then Ring.ProducerMoves
         else if !s.consumer.CIdle? && !s.consumer.CEnd? && !s.consumer.CParked? then Ring.ConsumerMoves
         else if k.bumpPushed > 0 then Ring.BumpPushed
         else if k.notifyPushed > 0 then Ring.NotifyPushed
         else if k.bumpPopped > 0 then Ring.BumpPopped
         else Ring.NotifyPopped;
    Ring.EnabledIsReady(s, e);
  }

  /** As long as nothing is shown, what can be served can still be. */
  lemma QuietStepServes(s: Ring.Ring, e: Ring.Event)
    requires Ring.Inv(s) && RingQuiet(s, e) && RingServes(s)
    ensures RingServes(Ring.Step(s, e))
  {
    hide Ring.Inv, Words.Sub, Words.Wrap, Words.Slot;
    InOneOfTheQueues(s);
    match e
    case ProducerMoves => match s.producer { case PCheck(_, _) => case PLoadHead(_, _) => case _ => }
    case ConsumerMoves => match s.consumer { case CCheck(_) => case CLoadTail(_) => case _ => }
    case _ =>
  }

  lemma InOneOfTheQueues(s: Ring.Ring)
    requires Ring.Inv(s)
    ensures s.capacity > 0 && |s.slots| == s.capacity
  {
  }

  /** From wherever something can be served, at most so many quiet steps lead to an answer. */
  lemma {:induction false} RingAnswers(s: Ring.Ring) returns (es: seq<Ring.Event>, e: Ring.Event)
    requires Ring.Inv(s) && RingServes(s)
    ensures RingQuietRun(s, es) && |es| <= RingRank(s)
    ensures var t := RingAfter(s, es); Ring.Ready(t, e) && !RingCall(e) && Ring.Observe(t, e) != Ring.Silent
    decreases RingRank(s)
  {
    hide Ring.Inv, Ring.Step, Ring.Observe, Ring.Enabled, RingServes, RingRank, RingCall;
    e := ServedCanMove(s);
    es := [];
    if RingQuiet(s, e) {
      QuietStepLowersRank(s, e);
      QuietStepServes(s, e);
      Ring.StepKeepsInv(s, e);
      var rest, last := RingAnswers(Ring.Step(s, e));
      es := [e] + rest;
      assert es[1..] == rest;
      e := last;
    }
  }

  /**
    What the abstract hand-off can serve, the ring behind it answers: within its rank, by steps of
    its own and wake-ups alone.
   */
  lemma RingServesHandOff(policy: Policy, s: Ring.Ring, h: System) returns (es: seq<Ring.Event>, e: Ring.Event)
    requires Ring.Inv(s) && s.popLog <= s.pushLog && RingMatches(policy, s, h)
    requires CanServe(policy, s.capacity, h, RingPops(s.consumer))
    ensures RingQuietRun(s, es) && |es| <= RingRank(s)
    ensures var t := RingAfter(s, es);
      Ring.Ready(t, e) && !RingCall(e) && RingSeen(Ring.Observe(t, e)) != []
  {
    hide RingQuietRun, RingAfter, RingRank;
    ServedByRing(policy, s, h);
    hide Ring.Inv, RingServes, RingMatches, CanServe;
    es, e := RingAnswers(s);
  }

  lemma ServedByRing(policy: Policy, s: Ring.Ring, h: System)
    requires Ring.Inv(s) && s.popLog <= s.pushLog && RingMatches(policy, s, h)
    requires CanServe(policy, s.capacity, h, RingPops(s.consumer))
    ensures RingServes(s)
  {
    hide Ring.Inv;
    assert |h.q.items| == |s.pushLog| - |s.popLog|;
  }

  // ---------- over a mailbox ----------

  /** A take has been called, and has not shown its answer yet. */
  predicate BoxPops(c: Mailbox.Consumer) {
    !c.CIdle? && !c.CEnd? && !c.CRead?
  }

  predicate GuardedCall(e: GuardedEvent) {
    e.CallPush? || (e.Inside? && (e.e.CallTake? || e.e.CallClose?))
  }

  ghost predicate BoxQuiet(g: Guarded, e: GuardedEvent) {
    Mailbox.Shaped(g.box) && GuardedEnabled(g, e) && !GuardedCall(e) && GuardedSeen(g, e) == []
  }

  function PublisherRank(p: Mailbox.Producer): nat {
    match p
    case PIdle => 0
    case PClosed(_) => 4
    case PWrite(_) => 3
    case PExchange(_) => 2
    case PDisplace => 10
    case PBump(_) => 9
    case PNotify(_) => 2
  }

  /** A consumer goes round once more if `published` has moved on since it looked. */
  function TakerRank(c: Mailbox.Consumer, published: nat): nat {
    match c
    case CIdle => 0
    case CEnd => 0
    case CEpoch => 6
    case CPeek(take) => if take.Final? then 3 else if take.seen == published then 5 else 9
    case CExchange => 2
    case CRead => 1
    case CClosed(seen) => if seen == published then 4 else 8
    case CWait(seen) => if seen == published then 2 else 7
    case CParked(seen) => if seen == published then 1 else 7
  }

  function BoxRank(g: Guarded): nat {
    PublisherRank(g.box.producer) + TakerRank(g.box.consumer, g.box.published)
    + 9 * g.box.bumping + 2 * g.box.notifying + if g.looking.Some? then 5 else 0
  }

  lemma PublishBumpRaisesLittle(c: Mailbox.Consumer, published: nat)
    ensures TakerRank(c, published + 1) <= TakerRank(c, published) + 6
    ensures TakerRank(Mailbox.Wake(c), published) <= TakerRank(c, published) + 1
  {
  }

  lemma QuietBoxStepLowersRank(g: Guarded, e: GuardedEvent)
    requires GuardedInv(g) && BoxQuiet(g, e)
    ensures BoxRank(GuardedStep(g, e)) < BoxRank(g)
  {
    hide Mailbox.Inv, Mailbox.Wake;
    PublishBumpRaisesLittle(g.box.consumer, g.box.published);
    match e
    case LookClosed =>
    case Inside(i) =>
      match i {
        case ProducerMoves =>
          match g.box.producer {
            case PBump(_) =>
            case PNotify(_) =>
            case _ =>
          }
        case ConsumerMoves =>
          match g.box.consumer {
            case CPeek(take) => if take.First? {} else {}
            case CClosed(_) =>
            case _ =>
          }
        case BumpPublished =>
        case NotifyPublished =>
      }
  }

  ghost predicate BoxQuietRun(g: Guarded, es: seq<GuardedEvent>)
    decreases |es|
  {
    es == [] || (BoxQuiet(g, es[0]) && BoxQuietRun(GuardedStep(g, es[0]), es[1..]))
  }

  ghost function BoxAfter(g: Guarded, es: seq<GuardedEvent>): Guarded
    requires BoxQuietRun(g, es)
    decreases |es|
  {
    if es == [] then g else BoxAfter(GuardedStep(g, es[0]), es[1..])
  }

  lemma QuietKeepsGuarded(g: Guarded, e: GuardedEvent, h: System) returns (t: System)
    requires GuardedInv(g) && GuardedEnabled(g, e) && BoxMatches(g, h)
    ensures GuardedInv(GuardedStep(g, e)) && BoxMatches(GuardedStep(g, e), t)
  {
    hide Mailbox.Inv, GuardedStep, GuardedEnabled, BoxMatches;
    var _, next := BoxStepMatched(g, e, h);
    t := next;
  }

  /** No schedule shows nothing for longer than the rank. */
  lemma {:induction false} BoxQuietRunsAreBounded(g: Guarded, es: seq<GuardedEvent>, h: System)
    requires GuardedInv(g) && BoxMatches(g, h) && BoxQuietRun(g, es)
    ensures |es| + BoxRank(BoxAfter(g, es)) <= BoxRank(g)
    decreases |es|
  {
    hide BoxRank, GuardedStep, GuardedSeen, GuardedEnabled, BoxMatches, Mailbox.Contents, Mailbox.Ordered,
      Mailbox.Accounted, Mailbox.Waits, Mailbox.ClosedLedger, Mailbox.Enabled;
    if es != [] {
      QuietBoxStepLowersRank(g, es[0]);
      var t := QuietKeepsGuarded(g, es[0], h);
      BoxQuietRunsAreBounded(GuardedStep(g, es[0]), es[1..], t);
    }
  }

  /** A push or a take is under way, and nothing it has to wait for is missing. */
  ghost predicate BoxServes(g: Guarded) {
    || g.looking.Some? || g.box.producer.PClosed? || g.box.producer.PWrite? || g.box.producer.PExchange?
    || (BoxPops(g.box.consumer) && (g.box.middle.unread || g.box.closed))
  }

  lemma ServedBoxCanMove(g: Guarded) returns (e: GuardedEvent)
    requires GuardedInv(g) && BoxServes(g)
    ensures GuardedEnabled(g, e) && !GuardedCall(e)
  {
    hide Mailbox.Contents, Mailbox.Ordered, Mailbox.Accounted, Mailbox.Waits, Mailbox.ClosedLedger;
    var s := g.box;
    if g.looking.Some? {
      e := LookClosed;
    } else {
      if s.consumer.CParked? && (s.middle.unread || s.closed) {
        Mailbox.NoLostWakeup(s);
      }
      e := Inside(
        if !s.producer.PIdle? then Mailbox.ProducerMoves
        else if !s.consumer.CIdle? && !s.consumer.CEnd? && !s.consumer.CParked? then Mailbox.ConsumerMoves
        else if s.bumping > 0 then Mailbox.BumpPublished
        else Mailbox.NotifyPublished);
    }
  }

  lemma QuietBoxStepServes(g: Guarded, e: GuardedEvent)
    requires GuardedInv(g) && BoxQuiet(g, e) && BoxServes(g)
    ensures BoxServes(GuardedStep(g, e))
  {
    hide Mailbox.Inv;
    match e
    case LookClosed =>
    case Inside(i) =>
      match i {
        case ProducerMoves => match g.box.producer { case PClosed(_) => case PNotify(_) => case _ => }
        case ConsumerMoves => match g.box.consumer { case CPeek(_) => case _ => }
        case _ => match g.box.consumer { case CParked(_) => case _ => }
      }
  }

  /** What the abstract hand-off can serve, the mailbox behind it answers, within its rank. */
  lemma {:induction false} BoxAnswers(g: Guarded, h: System) returns (es: seq<GuardedEvent>, e: GuardedEvent)
    requires GuardedInv(g) && BoxMatches(g, h) && BoxServes(g)
    ensures BoxQuietRun(g, es) && |es| <= BoxRank(g)
    ensures var t := BoxAfter(g, es);
      Mailbox.Shaped(t.box) && GuardedEnabled(t, e) && !GuardedCall(e) && GuardedSeen(t, e) != []
    decreases BoxRank(g)
  {
    hide BoxRank, BoxServes, GuardedStep, GuardedSeen, GuardedEnabled, GuardedCall, BoxMatches, Mailbox.Contents,
      Mailbox.Ordered, Mailbox.Accounted, Mailbox.Waits, Mailbox.ClosedLedger, Mailbox.Enabled;
    e := ServedBoxCanMove(g);
    es := [];
    if BoxQuiet(g, e) {
      QuietBoxStepLowersRank(g, e);
      QuietBoxStepServes(g, e);
      var t := QuietKeepsGuarded(g, e, h);
      var rest, last := BoxAnswers(GuardedStep(g, e), t);
      es := [e] + rest;
      assert es[1..] == rest;
      e := last;
    }
  }

  /** What the abstract hand-off can serve, the mailbox behind it answers. */
  lemma BoxServesHandOff(g: Guarded, h: System) returns (es: seq<GuardedEvent>, e: GuardedEvent)
    requires GuardedInv(g) && BoxMatches(g, h) && CanServe(Latest, 1, h, BoxPops(g.box.consumer))
    ensures BoxQuietRun(g, es) && |es| <= BoxRank(g)
    ensures var t := BoxAfter(g, es);
      Mailbox.Shaped(t.box) && GuardedEnabled(t, e) && !GuardedCall(e) && GuardedSeen(t, e) != []
  {
    hide BoxQuietRun, BoxAfter, BoxRank, Mailbox.Contents, Mailbox.Ordered, Mailbox.Accounted, Mailbox.Waits,
      Mailbox.ClosedLedger;
    es, e := BoxAnswers(g, h);
  }
}
