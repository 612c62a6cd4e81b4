/**
  Every run of a ring, and every run of a mailbox, is a run of the abstract hand-off: with the same
  insertions, drops, takes, closes and ends, in the same order. The pipeline works over the abstract
  hand-off, so what no run of that can do, no run over the lock-free queues can do either. That they
  also get on is a matter of its own, in `HandOffProgress`.

  A number stands for a frame. A move of the hand-off is a step of a push, or a pop, or a close.
 */
module HandOffRefinement {
  import opened Common
  import opened HandOff
  import Ring = SpscRing
  import Mailbox = LatestSlot
  import Words

  // ---------- the abstract hand-off between two threads ----------

  /** A queue, and the push that is under way, if any. */
  datatype System = System(q: Queue, push: Option<Push>)

  datatype Move = Begin(v: nat) | Advance | Finish | Take | End | Close

  /** What is visible of a move from outside. */
  datatype Seen = Inserted(v: nat) | Dropped(v: nat, result: Result) | Taken(v: nat) | Closing | Ending

  const IDLE := System(Queue([], false), None)

  function Numbered(v: nat): Frame {
    Frame(v, v)
  }

  predicate CanMove(policy: Policy, capacity: nat, h: System, m: Move) {
    match m
    case Begin(_) => h.push == None
    case Advance => h.push.Some? && CanPush(policy, capacity, h.q, h.push.value)
    case Finish => h.push.Some? && (h.push.value.Releasing? || h.push.value.Returned?)
    case Take => |h.q.items| > 0
    case End => h.q.closed && h.q.items == []
    case Close => true
  }

  function Moved(policy: Policy, capacity: nat, h: System, m: Move): System
    requires CanMove(policy, capacity, h, m)
  {
    match m
    case Begin(v) => h.(push := Some(Checking(Numbered(v))))
    case Advance => var (q, p) := PushStep(policy, capacity, h.q, h.push.value); System(q, Some(p))
    case Finish => h.(push := None)
    case Take => h.(q := h.q.(items := h.q.items[1..]))
    case End => h
    case Close => h.(q := h.q.(closed := true))
  }

  function Shows(policy: Policy, capacity: nat, h: System, m: Move): seq<Seen>
    requires CanMove(policy, capacity, h, m)
  {
    match m
    case Advance =>
      if Inserts(h.push.value, PushStep(policy, capacity, h.q, h.push.value).1) then
        [Inserted(h.push.value.f.id)]
      else []
    case Finish => if h.push.value.Releasing? then [Dropped(h.push.value.id, h.push.value.result)] else []
    case Take => [Taken(h.q.items[0].id)]
    case End => [Ending]
    case Close => [Closing]
    case _ => []
  }

  /** The moves can be made one after the other from h, lead to t, and show exactly this. */
  ghost predicate Leads(policy: Policy, capacity: nat, h: System, ms: seq<Move>, t: System, seen: seq<Seen>)
    decreases |ms|
  {
    if ms == [] then h == t && seen == []
    else
      && CanMove(policy, capacity, h, ms[0]) && Shows(policy, capacity, h, ms[0]) <= seen
      && Leads(policy, capacity, Moved(policy, capacity, h, ms[0]), ms[1..], t,
               seen[|Shows(policy, capacity, h, ms[0])|..])
  }

  /** What the moves show is the shows, one after the other. */
  lemma {:induction false} LeadsOn(policy: Policy, capacity: nat, h: System, ms: seq<Move>, t: System,
      seen: seq<Seen>, more: seq<Move>, last: System, seenToo: seq<Seen>)
    requires Leads(policy, capacity, h, ms, t, seen) && Leads(policy, capacity, t, more, last, seenToo)
    ensures Leads(policy, capacity, h, ms + more, last, seen + seenToo)
    decreases |ms|
  {
    hide CanMove, Moved, Shows;
    if ms == [] {
      assert ms + more == more && seen + seenToo == seenToo;
    } else {
      var next, k := Moved(policy, capacity, h, ms[0]), |Shows(policy, capacity, h, ms[0])|;
      LeadsOn(policy, capacity, next, ms[1..], t, seen[k..], more, last, seenToo);
      assert (ms + more)[1..] == ms[1..] + more;
      assert (seen + seenToo)[k..] == seen[k..] + seenToo;
    }
  }

  lemma OneMove(policy: Policy, capacity: nat, h: System, m: Move)
    requires CanMove(policy, capacity, h, m)
    ensures Leads(policy, capacity, h, [m], Moved(policy, capacity, h, m), Shows(policy, capacity, h, m))
  {
    hide CanMove, Moved, Shows;
    assert [m][1..] == [];
  }

  lemma TwoMoves(policy: Policy, capacity: nat, h: System, a: Move, b: Move)
    requires CanMove(policy, capacity, h, a)
    requires var x := Moved(policy, capacity, h, a); CanMove(policy, capacity, x, b)
    ensures var x := Moved(policy, capacity, h, a);
      Leads(policy, capacity, h, [a, b], Moved(policy, capacity, x, b),
            Shows(policy, capacity, h, a) + Shows(policy, capacity, x, b))
  {
    hide Leads, CanMove, Moved, Shows;
    var x := Moved(policy, capacity, h, a);
    OneMove(policy, capacity, h, a);
    OneMove(policy, capacity, x, b);
    LeadsOn(policy, capacity, h, [a], x, Shows(policy, capacity, h, a),
            [b], Moved(policy, capacity, x, b), Shows(policy, capacity, x, b));
    assert [a] + [b] == [a, b];
  }

  lemma ThreeMoves(policy: Policy, capacity: nat, h: System, a: Move, b: Move, c: Move)
    requires CanMove(policy, capacity, h, a)
    requires var x := Moved(policy, capacity, h, a);
      CanMove(policy, capacity, x, b) && CanMove(policy, capacity, Moved(policy, capacity, x, b), c)
    ensures var x := Moved(policy, capacity, h, a);
      var y := Moved(policy, capacity, x, b);
      Leads(policy, capacity, h, [a, b, c], Moved(policy, capacity, y, c),
            Shows(policy, capacity, h, a) + Shows(policy, capacity, x, b) + Shows(policy, capacity, y, c))
  {
    hide Leads, CanMove, Moved, Shows;
    var x := Moved(policy, capacity, h, a);
    var y := Moved(policy, capacity, x, b);
    TwoMoves(policy, capacity, h, a, b);
    OneMove(policy, capacity, y, c);
    LeadsOn(policy, capacity, h, [a, b], y, Shows(policy, capacity, h, a) + Shows(policy, capacity, x, b),
            [c], Moved(policy, capacity, y, c), Shows(policy, capacity, y, c));
    assert [a, b] + [c] == [a, b, c];
  }

  function Frames(items: seq<nat>): (s: seq<Frame>)
    ensures |s| == |items| && forall i :: 0 <= i < |s| ==> s[i] == Numbered(items[i])
  {
    seq(|items|, i requires 0 <= i < |items| => Numbered(items[i]))
  }

  // ---------- over a ring ----------

  /** The queue inside a ring. */
  ghost function QueueOf(s: Ring.Ring): Queue
    requires s.popLog <= s.pushLog
  {
    Queue(Frames(Ring.Abstract(s).items), s.closed)
  }

  /** A push that is about to look at `closed`, or sleeps until there is reason to look again. */
  predicate Looks(p: Ring.Producer) {
    p.PClosedOnce? || p.PEpoch? || p.PClosed? || p.PWait? || p.PParked?
  }

  /** Calls as the hand-off makes them: blocking or not, by its policy. */
  ghost predicate CallsBy(policy: Policy, p: Ring.Producer) {
    match p
    case PClosedOnce(_) => policy.DropNewest?
    case PCheck(_, call) => call.Blocking? <==> policy.Block?
    case PLoadHead(_, call) => call.Blocking? <==> policy.Block?
    case PEpoch(_) => policy.Block?
    case PClosed(_, _) => policy.Block?
    case PWait(_, _) => policy.Block?
    case PParked(_, _) => policy.Block?
    case _ => true
  }

  /**
    How far the abstract push is. A ring can wake a push for nothing, find the ring open, and be
    closed before it finds it no longer full; so while the ring is full and open the abstract push
    has not gone to sleep yet, and does so with the pop or the close that will wake it.
   */
  ghost predicate PushMatches(policy: Policy, capacity: nat, p: Ring.Producer, h: System) {
    match p
    case PIdle => h.push == None
    case PBump => h.push == Some(Returned(Accepted))
    case PNotify => h.push == Some(Returned(Accepted))
    case PClosedOnce(v) => h.push == Some(Checking(Numbered(v)))
    case PCheck(v, _) => h.push == Some(Inserting(Numbered(v)))
    case PLoadHead(v, _) => h.push == Some(Inserting(Numbered(v)))
    case PWrite(v) => h.push == Some(Inserting(Numbered(v)))
    case PPublish(v) => h.push == Some(Inserting(Numbered(v)))
    case _ =>
      || h.push == Some(Checking(Numbered(p.v)))
      || (h.push == Some(Inserting(Numbered(p.v))) && Full(policy, capacity, h.q) && !h.q.closed)
      || (h.push == Some(Waiting(Numbered(p.v))) && h.q.closed)
  }

  ghost predicate RingMatches(policy: Policy, s: Ring.Ring, h: System)
    requires s.popLog <= s.pushLog
  {
    && !policy.Latest? && CallsBy(policy, s.producer)
    && h.q == QueueOf(s) && PushMatches(policy, s.capacity, s.producer, h)
  }

  function RingSeen(o: Ring.Observed): seq<Seen> {
    match o
    case Silent => []
    case Pushed(v) => [Inserted(v)]
    case Popped(v) => [Taken(v)]
    case ClosedNow => [Closing]
    case RefusedFull(v) => [Dropped(v, DroppedIncoming)]
    case RefusedClosed(v) => [Dropped(v, Closed)]
    case Ended => [Ending]
  }

  function AllRingSeen(os: seq<Ring.Observed>): seq<Seen> {
    if os == [] then [] else RingSeen(os[0]) + AllRingSeen(os[1..])
  }

  /** What the words, the slots and the invariant say about the queue inside. */
  lemma InsideRing(s: Ring.Ring)
    requires Ring.Inv(s)
    ensures var q := QueueOf(s);
      && q.closed == s.closed && |q.items| <= s.capacity
      && (s.producer.PLoadHead? ==> (Words.Sub(s.tail, s.head) == s.capacity <==> |q.items| == s.capacity))
      && (s.producer.PPublish? ==> |q.items| < s.capacity)
  {
    hide Words.Sub, Words.Wrap, Words.Slot, Words.Capacity, Ring.Contents, Ring.ConsumerWaits, Ring.ProducerWaits,
      Ring.ClosedLedger;
    Ring.WordsAgree(s);
  }

  /** The queue inside follows what the ring shows. */
  lemma QueueFollows(s: Ring.Ring, e: Ring.Event)
    requires Ring.Inv(s) && Ring.Ready(s, e)
    ensures Ring.Inv(Ring.Step(s, e)) && Ring.Step(s, e).capacity == s.capacity
    ensures var q, r := QueueOf(s), QueueOf(Ring.Step(s, e));
      match Ring.Observe(s, e)
      case Pushed(v) => |q.items| < s.capacity && r == q.(items := q.items + [Numbered(v)])
      case Popped(v) => |q.items| > 0 && q.items[0] == Numbered(v) && r == q.(items := q.items[1..])
      case ClosedNow => r == q.(closed := true)
      case RefusedFull(_) => |q.items| == s.capacity && r == q
      case RefusedClosed(_) => q.closed && r == q
      case Ended => q.closed && q.items == [] && r == q
      case Silent => r == q
  {
    hide Ring.Step, Ring.Observe, Ring.Counters, Ring.Contents, Ring.ConsumerWaits, Ring.ProducerWaits,
      Ring.ClosedLedger, Ring.Enabled;
    Ring.StepRefines(s, e);
    InvOrdered(s);
    InvOrdered(Ring.Step(s, e));
    var a, b := Ring.Abstract(s), Ring.Abstract(Ring.Step(s, e));
    match Ring.Observe(s, e)
    case Pushed(v) => assert Frames(a.items + [v]) == Frames(a.items) + [Numbered(v)];
    case Popped(v) => assert Frames(a.items[1..]) == Frames(a.items)[1..];
    case _ =>
  }

  /** A push looks at `closed`: it is dropped, or goes on to insert its frame. */
  lemma LookMatched(policy: Policy, capacity: nat, p: Ring.Producer, h: System) returns (ms: seq<Move>, t: System)
    requires (p.PClosedOnce? || p.PClosed?) && !policy.Latest? && PushMatches(policy, capacity, p, h)
    ensures t.q == h.q
    ensures h.q.closed ==> t.push == None && Leads(policy, capacity, h, ms, t, [Dropped(p.v, Closed)])
    ensures !h.q.closed ==>
      t.push == Some(Inserting(Numbered(p.v))) && Leads(policy, capacity, h, ms, t, [])
  {
    hide Leads;
    if h.push.value.Inserting? {
      ms, t := [], h;
      assert Leads(policy, capacity, h, [], h, []) by { NoMove(policy, capacity, h); }
    } else if !h.q.closed {
      ms, t := [Advance], Moved(policy, capacity, h, Advance);
      OneMove(policy, capacity, h, Advance);
    } else if h.push.value.Checking? {
      ms, t := [Advance, Finish], System(h.q, None);
      TwoMoves(policy, capacity, h, Advance, Finish);
      assert [] + [Dropped(p.v, Closed)] == [Dropped(p.v, Closed)];
    } else {
      ms, t := [Advance, Advance, Finish], System(h.q, None);
      ThreeMoves(policy, capacity, h, Advance, Advance, Finish);
      assert [] + [] + [Dropped(p.v, Closed)] == [Dropped(p.v, Closed)];
    }
  }

  lemma NoMove(policy: Policy, capacity: nat, h: System)
    ensures Leads(policy, capacity, h, [], h, [])
  {
  }

  /** A push finds the queue full. */
  lemma FullMatched(policy: Policy, capacity: nat, p: Ring.Producer, h: System) returns (ms: seq<Move>, t: System)
    requires p.PLoadHead? && CallsBy(policy, p) && !policy.Latest? && PushMatches(policy, capacity, p, h)
    requires Full(policy, capacity, h.q)
    ensures t.q == h.q
    ensures p.call.Once? ==>
      t.push == None && Leads(policy, capacity, h, ms, t, [Dropped(p.v, DroppedIncoming)])
    ensures p.call.Blocking? ==>
      PushMatches(policy, capacity, Ring.PWait(p.v, p.call.seen), t) && Leads(policy, capacity, h, ms, t, [])
  {
    hide Leads;
    if p.call.Once? {
      ms, t := [Advance, Finish], System(h.q, None);
      TwoMoves(policy, capacity, h, Advance, Finish);
      assert [] + [Dropped(p.v, DroppedIncoming)] == [Dropped(p.v, DroppedIncoming)];
    } else if h.q.closed {
      ms, t := [Advance], Moved(policy, capacity, h, Advance);
      OneMove(policy, capacity, h, Advance);
    } else {
      ms, t := [], h;
      NoMove(policy, capacity, h);
    }
  }

  /** A step of the ring's producer. */
  lemma ProducerMatched(policy: Policy, s: Ring.Ring, h: System) returns (ms: seq<Move>, t: System)
    requires Ring.Inv(s) && Ring.Ready(s, Ring.ProducerMoves) && RingMatches(policy, s, h)
    ensures var r := Ring.ProducerStep(s);
      && r.popLog <= r.pushLog && RingMatches(policy, r, t)
      && Leads(policy, s.capacity, h, ms, t, RingSeen(Ring.Observe(s, Ring.ProducerMoves)))
  {
    hide Leads, Ring.Inv, QueueOf, Words.Sub, Words.Wrap, Words.Slot;
    QueueFollows(s, Ring.ProducerMoves);
    InsideRing(s);
    var r := Ring.ProducerStep(s);
    assert Ring.Step(s, Ring.ProducerMoves) == r;
    assert r.popLog <= r.pushLog by { InvOrdered(r); }
    match s.producer {
      case PClosedOnce(_) => ms, t := LookMatched(policy, s.capacity, s.producer, h);
      case PClosed(_, _) => ms, t := LookMatched(policy, s.capacity, s.producer, h);
      case PLoadHead(_, _) =>
        if Full(policy, s.capacity, h.q) {
          ms, t := FullMatched(policy, s.capacity, s.producer, h);
        } else {
          ms, t := [], h;
          NoMove(policy, s.capacity, h);
        }
      case PPublish(_) =>
        ms, t := [Advance], Moved(policy, s.capacity, h, Advance);
        OneMove(policy, s.capacity, h, Advance);
      case PNotify =>
        ms, t := [Finish], Moved(policy, s.capacity, h, Finish);
        OneMove(policy, s.capacity, h, Finish);
      case _ =>
        ms, t := [], h;
        NoMove(policy, s.capacity, h);
    }
  }

  lemma InvOrdered(s: Ring.Ring)
    requires Ring.Inv(s)
    ensures s.popLog <= s.pushLog
  {
  }

  /** The oldest frame is taken; a push that is overdue to sleep does so first, and is woken. */
  lemma TakeMatched(policy: Policy, capacity: nat, p: Ring.Producer, h: System) returns (ms: seq<Move>, t: System)
    requires CallsBy(policy, p) && !policy.Latest? && PushMatches(policy, capacity, p, h)
    requires 0 < |h.q.items| <= capacity
    ensures t.q == h.q.(items := h.q.items[1..]) && PushMatches(policy, capacity, p, t)
    ensures Leads(policy, capacity, h, ms, t, [Taken(h.q.items[0].id)])
  {
    hide Leads;
    if Looks(p) && h.push.value.Inserting? {
      ms := [Advance, Take, Advance];
      ThreeMoves(policy, capacity, h, Advance, Take, Advance);
      t := System(h.q.(items := h.q.items[1..]), Some(Checking(Numbered(p.v))));
      assert [] + [Taken(h.q.items[0].id)] + [] == [Taken(h.q.items[0].id)];
    } else {
      ms, t := [Take], Moved(policy, capacity, h, Take);
      OneMove(policy, capacity, h, Take);
    }
  }

  /** The queue is closed; a push that is overdue to sleep does so first. */
  lemma CloseMatched(policy: Policy, capacity: nat, p: Ring.Producer, h: System) returns (ms: seq<Move>, t: System)
    requires CallsBy(policy, p) && !policy.Latest? && PushMatches(policy, capacity, p, h)
    ensures t.q == h.q.(closed := true) && PushMatches(policy, capacity, p, t)
    ensures Leads(policy, capacity, h, ms, t, [Closing])
  {
    hide Leads;
    if Looks(p) && h.push.value.Inserting? {
      ms := [Advance, Close];
      TwoMoves(policy, capacity, h, Advance, Close);
      t := System(h.q.(closed := true), Some(Waiting(Numbered(p.v))));
      assert [] + [Closing] == [Closing];
    } else {
      ms, t := [Close], Moved(policy, capacity, h, Close);
      OneMove(policy, capacity, h, Close);
    }
  }

  /** A step of the ring's consumer. */
  lemma ConsumerMatched(policy: Policy, s: Ring.Ring, h: System) returns (ms: seq<Move>, t: System)
    requires Ring.Inv(s) && Ring.Ready(s, Ring.ConsumerMoves) && RingMatches(policy, s, h)
    ensures var r := Ring.ConsumerStep(s);
      && r.popLog <= r.pushLog && RingMatches(policy, r, t)
      && Leads(policy, s.capacity, h, ms, t, RingSeen(Ring.Observe(s, Ring.ConsumerMoves)))
  {
    hide Leads, Ring.Inv, QueueOf, Words.Sub, Words.Wrap, Words.Slot;
    QueueFollows(s, Ring.ConsumerMoves);
    InsideRing(s);
    var r := Ring.ConsumerStep(s);
    assert Ring.Step(s, Ring.ConsumerMoves) == r;
    assert r.popLog <= r.pushLog by { InvOrdered(r); }
    match Ring.Observe(s, Ring.ConsumerMoves) {
      case Popped(_) => ms, t := TakeMatched(policy, s.capacity, s.producer, h);
      case Ended =>
        ms, t := [End], h;
        OneMove(policy, s.capacity, h, End);
      case _ =>
        ms, t := [], h;
        NoMove(policy, s.capacity, h);
    }
  }

  /** Calls as the hand-off makes them. */
  predicate CallBy(policy: Policy, e: Ring.Event) {
    (e.CallTryPush? ==> policy.DropNewest?) && (e.CallPush? ==> policy.Block?)
  }

  /** A call, or a step of a close. */
  lemma CallMatched(policy: Policy, s: Ring.Ring, e: Ring.Event, h: System) returns (ms: seq<Move>, t: System)
    requires Ring.Inv(s) && Ring.Ready(s, e) && RingMatches(policy, s, h) && CallBy(policy, e)
    requires !e.ProducerMoves? && !e.ConsumerMoves?
    ensures var r := Ring.Step(s, e);
      && r.popLog <= r.pushLog && RingMatches(policy, r, t)
      && Leads(policy, s.capacity, h, ms, t, RingSeen(Ring.Observe(s, e)))
  {
    hide Leads, Ring.Inv, QueueOf;
    QueueFollows(s, e);
    InsideRing(s);
    var r := Ring.Step(s, e);
    assert r.popLog <= r.pushLog by { InvOrdered(r); }
    match e {
      case CallTryPush(v) =>
        ms, t := [Begin(v)], Moved(policy, s.capacity, h, Begin(v));
        OneMove(policy, s.capacity, h, Begin(v));
      case CallPush(v) =>
        ms, t := [Begin(v)], Moved(policy, s.capacity, h, Begin(v));
        OneMove(policy, s.capacity, h, Begin(v));
      case CallClose => ms, t := CloseMatched(policy, s.capacity, s.producer, h);
      case _ =>
        ms, t := [], h;
        NoMove(policy, s.capacity, h);
    }
  }

  /** Every step of a ring is some moves of the hand-off, that show the same. */
  lemma RingStepMatched(policy: Policy, s: Ring.Ring, e: Ring.Event, h: System) returns (ms: seq<Move>, t: System)
    requires Ring.Inv(s) && Ring.Ready(s, e) && RingMatches(policy, s, h) && CallBy(policy, e)
    ensures var r := Ring.Step(s, e);
      && Ring.Inv(r) && r.capacity == s.capacity && r.popLog <= r.pushLog && RingMatches(policy, r, t)
      && Leads(policy, s.capacity, h, ms, t, RingSeen(Ring.Observe(s, e)))
  {
    hide Leads, Ring.Inv, RingMatches, Ring.Observe, RingSeen, Ring.ProducerStep, Ring.ConsumerStep;
    QueueFollows(s, e);
    if e.ProducerMoves? {
      ms, t := ProducerMatched(policy, s, h);
    } else if e.ConsumerMoves? {
      ms, t := ConsumerMatched(policy, s, h);
    } else {
      ms, t := CallMatched(policy, s, e, h);
    }
  }

  lemma {:induction false} RingRunMatched(policy: Policy, s: Ring.Ring, es: seq<Ring.Event>, h: System)
    returns (ms: seq<Move>, t: System)
    requires Ring.Inv(s) && Ring.Follows(s, es) && RingMatches(policy, s, h)
    requires forall e :: e in es ==> CallBy(policy, e)
    ensures var r := Ring.Run(s, es);
      && Ring.Inv(r) && r.popLog <= r.pushLog && RingMatches(policy, r, t)
      && Leads(policy, s.capacity, h, ms, t, AllRingSeen(Ring.Trace(s, es)))
    decreases |es|
  {
    hide Leads, Ring.Inv, RingMatches, Ring.Observe, RingSeen, Ring.Step, CallBy;
    if es == [] {
      ms, t := [], h;
      NoMove(policy, s.capacity, h);
      InvOrdered(s);
    } else {
      var first, middle := RingStepMatched(policy, s, es[0], h);
      var r := Ring.Step(s, es[0]);
      var rest;
      rest, t := RingRunMatched(policy, r, es[1..], middle);
      ms := first + rest;
      var seen := Ring.Trace(s, es);
      assert seen[1..] == Ring.Trace(r, es[1..]);
      LeadsOn(policy, s.capacity, h, first, middle, RingSeen(seen[0]), rest, t, AllRingSeen(seen[1..]));
    }
  }

  /**
    Whatever a ring does, called as the policy calls it, the hand-off can do: with the same frames
    inserted, dropped, taken, and the same results. In the end both hold the same queue.
   */
  lemma RingRunIsHandOffRun(policy: Policy, minCapacity: nat, es: seq<Ring.Event>)
    returns (ms: seq<Move>, t: System)
    requires !policy.Latest? && minCapacity <= Words.MAX_CAPACITY
    requires Ring.Follows(Ring.Init(minCapacity), es) && forall e :: e in es ==> CallBy(policy, e)
    ensures var s, r := Ring.Init(minCapacity), Ring.Run(Ring.Init(minCapacity), es);
      && r.popLog <= r.pushLog && RingMatches(policy, r, t)
      && Leads(policy, s.capacity, IDLE, ms, t, AllRingSeen(Ring.Trace(s, es)))
  {
    hide Leads, Ring.Inv, CallBy;
    var s := Ring.Init(minCapacity);
    Ring.InitHolds(minCapacity);
    assert QueueOf(s) == IDLE.q;
    ms, t := RingRunMatched(policy, s, es, IDLE);
  }

  // ---------- over a mailbox ----------

  /**
    A mailbox, and the push that is about to look at `closed` by itself, before it publishes. The
    mailbox looks again.
   */
  datatype Guarded = Guarded(box: Mailbox.Mailbox, looking: Option<nat>)

  /** `CallPush` and the look are the hand-off's steps; all others are the mailbox's. */
  datatype GuardedEvent = CallPush(v: nat) | LookClosed | Inside(e: Mailbox.Event)

  predicate GuardedEnabled(g: Guarded, e: GuardedEvent) {
    match e
    case CallPush(v) => g.box.producer == Mailbox.PIdle && g.looking == None && Mailbox.Newer(g.box.given, v)
    case LookClosed => g.looking.Some?
    case Inside(e) => !e.CallPublish? && Mailbox.Enabled(g.box, e)
  }

  ghost predicate GuardedInv(g: Guarded) {
    && Mailbox.Inv(g.box)
    && (g.looking.Some? ==> Mailbox.Enabled(g.box, Mailbox.CallPublish(g.looking.value)))
  }

  /** An open mailbox is told to publish: the call by itself changes nothing that others see. */
  function Publish(s: Mailbox.Mailbox, v: nat): Mailbox.Mailbox {
    s.(producer := Mailbox.PClosed(v), given := s.given + [v])
  }

  ghost function GuardedStep(g: Guarded, e: GuardedEvent): Guarded
    requires Mailbox.Shaped(g.box) && GuardedEnabled(g, e)
  {
    match e
    case CallPush(v) => g.(looking := Some(v))
    case LookClosed => Guarded(if g.box.closed then g.box else Publish(g.box, g.looking.value), None)
    case Inside(e) => g.(box := Mailbox.Step(g.box, e))
  }

  function BoxSeen(o: Mailbox.Observed): seq<Seen> {
    match o
    case Silent => []
    case Published(v) => [Inserted(v)]
    case Returned(d) => if d.Some? then [Dropped(d.value, ReplacedStale)] else []
    case Took(v) => [Taken(v)]
    case Refused(v) => [Dropped(v, ReplacedStale)]
    case ClosedNow => [Closing]
    case Ended => [Ending]
  }

  ghost function GuardedSeen(g: Guarded, e: GuardedEvent): seq<Seen>
    requires Mailbox.Shaped(g.box) && GuardedEnabled(g, e)
  {
    match e
    case CallPush(_) => []
    case LookClosed => if g.box.closed then [Dropped(g.looking.value, Closed)] else []
    case Inside(e) => BoxSeen(Mailbox.Observe(g.box, e))
  }

  ghost predicate GuardedFollows(g: Guarded, es: seq<GuardedEvent>)
    decreases |es|
  {
    es == [] ||
    (Mailbox.Shaped(g.box) && GuardedEnabled(g, es[0]) && GuardedFollows(GuardedStep(g, es[0]), es[1..]))
  }

  ghost function GuardedRun(g: Guarded, es: seq<GuardedEvent>): Guarded
    requires GuardedFollows(g, es)
    decreases |es|
  {
    if es == [] then g else GuardedRun(GuardedStep(g, es[0]), es[1..])
  }

  ghost function AllGuardedSeen(g: Guarded, es: seq<GuardedEvent>): seq<Seen>
    requires GuardedFollows(g, es)
    decreases |es|
  {
    if es == [] then [] else GuardedSeen(g, es[0]) + AllGuardedSeen(GuardedStep(g, es[0]), es[1..])
  }

  /** The queue inside a mailbox. */
  ghost function BoxOf(s: Mailbox.Mailbox): Queue
    requires Mailbox.Shaped(s)
  {
    Queue(match Mailbox.Abstract(s).content case None => [] case Some(v) => [Numbered(v)], s.closed)
  }

  ghost predicate PublishMatches(g: Guarded, h: System)
    requires Mailbox.Shaped(g.box)
  {
    match g.box.producer
    case PIdle => h.push == (match g.looking case None => None case Some(v) => Some(Checking(Numbered(v))))
    case PClosed(v) => h.push == Some(Publishing(Numbered(v)))
    case PWrite(v) => h.push == Some(Inserting(Numbered(v)))
    case PExchange(v) => h.push == Some(Inserting(Numbered(v)))
    case _ =>
      match Mailbox.Abstract(g.box).returning
      case None => h.push == Some(Returned(Accepted))
      case Some(v) => h.push == Some(Releasing(v, ReplacedStale))
  }

  ghost predicate BoxMatches(g: Guarded, h: System)
    requires Mailbox.Shaped(g.box)
  {
    h.q == BoxOf(g.box) && PublishMatches(g, h)
  }

  /** A step of the mailbox's producer. */
  lemma PublishStepMatched(g: Guarded, h: System) returns (ms: seq<Move>, t: System)
    requires GuardedInv(g) && Mailbox.Enabled(g.box, Mailbox.ProducerMoves) && BoxMatches(g, h)
    ensures var r := g.(box := Mailbox.Step(g.box, Mailbox.ProducerMoves));
      && GuardedInv(r) && BoxMatches(r, t)
      && Leads(Latest, 1, h, ms, t, BoxSeen(Mailbox.Observe(g.box, Mailbox.ProducerMoves)))
  {
    hide Leads, Mailbox.Abstract, Mailbox.Contents, Mailbox.Ordered, Mailbox.Accounted, Mailbox.Waits,
      Mailbox.ClosedLedger;
    Mailbox.StepRefines(g.box, Mailbox.ProducerMoves);
    ms, t := [], h;
    NoMove(Latest, 1, h);
    match g.box.producer {
      case PClosed(v) =>
        if g.box.closed {
          ms, t := [Advance, Finish], System(h.q, None);
          TwoMoves(Latest, 1, h, Advance, Finish);
          assert [] + [Dropped(v, ReplacedStale)] == [Dropped(v, ReplacedStale)];
        } else {
          ms, t := [Advance], Moved(Latest, 1, h, Advance);
          OneMove(Latest, 1, h, Advance);
        }
      case PExchange(_) =>
        ms, t := [Advance], Moved(Latest, 1, h, Advance);
        OneMove(Latest, 1, h, Advance);
      case PNotify(_) =>
        ms, t := [Finish], Moved(Latest, 1, h, Finish);
        OneMove(Latest, 1, h, Finish);
      case _ =>
    }
  }

  /** Any other step inside the mailbox. */
  lemma OtherStepMatched(g: Guarded, e: Mailbox.Event, h: System) returns (ms: seq<Move>, t: System)
    requires GuardedInv(g) && Mailbox.Enabled(g.box, e) && BoxMatches(g, h) && !e.ProducerMoves? && !e.CallPublish?
    ensures var r := g.(box := Mailbox.Step(g.box, e));
      && GuardedInv(r) && BoxMatches(r, t)
      && Leads(Latest, 1, h, ms, t, BoxSeen(Mailbox.Observe(g.box, e)))
  {
    hide Leads, Mailbox.Abstract, Mailbox.Contents, Mailbox.Ordered, Mailbox.Accounted, Mailbox.Waits,
      Mailbox.ClosedLedger;
    Mailbox.StepRefines(g.box, e);
    AbstractClosed(g.box);
    ms, t := [], h;
    NoMove(Latest, 1, h);
    match Mailbox.Observe(g.box, e) {
      case Took(_) => ms := [Take];
      case ClosedNow => ms := [Close];
      case Ended => ms := [End];
      case _ =>
    }
    if |ms| == 1 {
      t := Moved(Latest, 1, h, ms[0]);
      OneMove(Latest, 1, h, ms[0]);
    }
  }

  lemma AbstractClosed(s: Mailbox.Mailbox)
    requires Mailbox.Shaped(s)
    ensures Mailbox.Abstract(s).closed == s.closed
  {
  }

  /** The hand-off's own look at `closed`, before the mailbox's. */
  lemma OwnLookMatched(g: Guarded, h: System) returns (ms: seq<Move>, t: System)
    requires GuardedInv(g) && g.looking.Some? && BoxMatches(g, h)
    ensures var r := GuardedStep(g, LookClosed);
      && GuardedInv(r) && BoxMatches(r, t)
      && Leads(Latest, 1, h, ms, t, GuardedSeen(g, LookClosed))
  {
    hide Leads, Mailbox.Abstract, Mailbox.Contents, Mailbox.Ordered, Mailbox.Accounted, Mailbox.Waits,
      Mailbox.ClosedLedger;
    var v := g.looking.value;
    Mailbox.StepRefines(g.box, Mailbox.CallPublish(v));
    assert Publish(g.box, v) == Mailbox.Step(g.box, Mailbox.CallPublish(v));
    if g.box.closed {
      ms, t := [Advance, Finish], System(h.q, None);
      TwoMoves(Latest, 1, h, Advance, Finish);
      assert [] + [Dropped(v, Closed)] == [Dropped(v, Closed)];
    } else {
      ms, t := [Advance], Moved(Latest, 1, h, Advance);
      OneMove(Latest, 1, h, Advance);
    }
  }

  /** Every step of a push over a mailbox is some moves of the hand-off, that show the same. */
  lemma BoxStepMatched(g: Guarded, e: GuardedEvent, h: System) returns (ms: seq<Move>, t: System)
    requires GuardedInv(g) && GuardedEnabled(g, e) && BoxMatches(g, h)
    ensures var r := GuardedStep(g, e);
      && GuardedInv(r) && BoxMatches(r, t)
      && Leads(Latest, 1, h, ms, t, GuardedSeen(g, e))
  {
    hide Leads, Mailbox.Inv, Mailbox.Abstract, BoxSeen, Mailbox.Observe, Mailbox.Step;
    match e {
      case CallPush(v) =>
        ms, t := [Begin(v)], Moved(Latest, 1, h, Begin(v));
        OneMove(Latest, 1, h, Begin(v));
      case LookClosed => ms, t := OwnLookMatched(g, h);
      case Inside(i) =>
        if i.ProducerMoves? {
          ms, t := PublishStepMatched(g, h);
        } else {
          ms, t := OtherStepMatched(g, i, h);
        }
    }
  }

  lemma {:induction false} BoxRunMatched(g: Guarded, es: seq<GuardedEvent>, h: System)
    returns (ms: seq<Move>, t: System)
    requires GuardedInv(g) && GuardedFollows(g, es) && BoxMatches(g, h)
    ensures var r := GuardedRun(g, es);
      && GuardedInv(r) && BoxMatches(r, t)
      && Leads(Latest, 1, h, ms, t, AllGuardedSeen(g, es))
    decreases |es|
  {
    hide Leads, BoxMatches, GuardedSeen, GuardedStep, GuardedEnabled, Mailbox.Contents, Mailbox.Ordered,
      Mailbox.Accounted, Mailbox.Waits, Mailbox.ClosedLedger, Mailbox.Enabled;
    if es == [] {
      ms, t := [], h;
      NoMove(Latest, 1, h);
    } else {
      var first, middle := BoxStepMatched(g, es[0], h);
      var r, rest := GuardedStep(g, es[0]), [];
      rest, t := BoxRunMatched(r, es[1..], middle);
      ms := first + rest;
      LeadsOn(Latest, 1, h, first, middle, GuardedSeen(g, es[0]), rest, t, AllGuardedSeen(r, es[1..]));
    }
  }

  /**
    Whatever a push, a take or a close does over a mailbox, the hand-off with policy `Latest` can
    do: with the same frames inserted, displaced, refused and taken, and the same results. In the
    end both hold the same queue.
   */
  lemma MailboxRunIsHandOffRun(es: seq<GuardedEvent>) returns (ms: seq<Move>, t: System)
    requires GuardedFollows(Guarded(Mailbox.Init(), None), es)
    ensures var g := Guarded(Mailbox.Init(), None);
      && GuardedInv(GuardedRun(g, es)) && BoxMatches(GuardedRun(g, es), t)
      && Leads(Latest, 1, IDLE, ms, t, AllGuardedSeen(g, es))
  {
    hide Leads, GuardedFollows, Mailbox.Accounted;
    Mailbox.InitHolds();
    ms, t := BoxRunMatched(Guarded(Mailbox.Init(), None), es, IDLE);
  }
}
