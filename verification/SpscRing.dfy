/**
  The bounded single-producer/single-consumer ring as an interleaving of atomic steps.

  One step is one access to a shared atomic, one access to a slot, or one private decision. Any
  number of threads may be inside `close()`; they are told apart only by how far they have got,
  so the state counts them per step. The logs, `sawHead` and `sawTail` are history: no step looks
  at them. They count pushes and pops without wrapping, while the ring itself works on words.
 */
module SpscRing {
  import opened Common
  import opened Words

  type Value = nat

  /** How a push was called: once (the caller has checked `closed` itself), or blocking, with the epoch it saw. */
  datatype PushCall = Once | Blocking(seen: nat)

  /** The first attempt of a pop, with the epoch it saw, or the last attempt after `closed` was seen. */
  datatype PopCall = First(seen: nat) | Final

  datatype Producer =
    | PIdle
    | PClosedOnce(v: Value)            // about to load `closed` before a single attempt
    | PEpoch(v: Value)                 // about to load `popped`
    | PClosed(v: Value, seen: nat)     // about to load `closed`
    | PCheck(v: Value, call: PushCall) // about to compare the cached head
    | PLoadHead(v: Value, call: PushCall)
    | PWrite(v: Value)
    | PPublish(v: Value)               // slot written, `tail` not yet stored
    | PBump                            // about to bump `pushed`
    | PNotify                          // about to notify `pushed`
    | PWait(v: Value, seen: nat)       // about to compare `popped` and sleep
    | PParked(v: Value, seen: nat)

  datatype Consumer =
    | CIdle
    | CEpoch
    | CCheck(pop: PopCall)
    | CLoadTail(pop: PopCall)
    | CRead
    | CPublish(v: Value)               // value moved out, `head` not yet stored
    | CBump
    | CNotify
    | CClosed(seen: nat)
    | CWait(seen: nat)
    | CParked(seen: nat)
    | CEnd                             // `pop` has returned nothing

  /** How many threads stand at each step of `close()`, after the store to `closed`. */
  datatype Closers = Closers(bumpPushed: nat, notifyPushed: nat, bumpPopped: nat, notifyPopped: nat)

  datatype Ring = Ring(
    capacity: nat, slots: seq<Option<Value>>,
    head: nat, tail: nat, cachedHead: nat, cachedTail: nat,
    pushed: nat, popped: nat, closed: bool,
    producer: Producer, consumer: Consumer, closers: Closers,
    pushLog: seq<Value>, popLog: seq<Value>, sawHead: nat, sawTail: nat,
    closedAt: nat, raced: bool)

  function Init(minCapacity: nat): (s: Ring)
    requires minCapacity <= MAX_CAPACITY
  {
    var c := BitCeil(if minCapacity == 0 then 1 else minCapacity);
    Ring(c, seq(c, _ => None), 0, 0, 0, 0, 0, 0, false, PIdle, CIdle, Closers(0, 0, 0, 0), [], [], 0, 0, 0, false)
  }

  /** Who moves next, and with which call when a new one starts. */
  datatype Event =
    | CallTryPush(v: Value) | CallPush(v: Value) | ProducerMoves
    | CallPop | ConsumerMoves
    | CallClose | BumpPushed | NotifyPushed | BumpPopped | NotifyPopped

  predicate Enabled(s: Ring, e: Event) {
    match e
    case CallTryPush(_) => s.producer == PIdle
    case CallPush(_) => s.producer == PIdle
    case ProducerMoves => !s.producer.PIdle? && !s.producer.PParked?
    case CallPop => s.consumer.CIdle? || s.consumer.CEnd?
    case ConsumerMoves => !s.consumer.CIdle? && !s.consumer.CEnd? && !s.consumer.CParked?
    case CallClose => true
    case BumpPushed => s.closers.bumpPushed > 0
    case NotifyPushed => s.closers.notifyPushed > 0
    case BumpPopped => s.closers.bumpPopped > 0
    case NotifyPopped => s.closers.notifyPopped > 0
  }

  /** A notification sends a parked waiter back to compare the epoch. */
  function WakeConsumer(c: Consumer): Consumer {
    if c.CParked? then CWait(c.seen) else c
  }

  function WakeProducer(p: Producer): Producer {
    if p.PParked? then PWait(p.v, p.seen) else p
  }

  /** The producer is past its check of `closed` and has not yet published. */
  predicate Committed(p: Producer) {
    p.PCheck? || p.PLoadHead? || p.PWrite? || p.PPublish?
  }

  function ProducerStep(s: Ring): Ring
    requires s.capacity > 0 && |s.slots| == s.capacity
    requires Enabled(s, ProducerMoves)
  {
    match s.producer
    case PClosedOnce(v) => s.(producer := if s.closed then PIdle else PCheck(v, Once))
    case PEpoch(v) => s.(producer := PClosed(v, s.popped))
    case PClosed(v, seen) => s.(producer := if s.closed then PIdle else PCheck(v, Blocking(seen)))
    case PCheck(v, call) =>
      s.(producer := if Sub(s.tail, s.cachedHead) == s.capacity then PLoadHead(v, call) else PWrite(v))
    case PLoadHead(v, call) =>
      s.(cachedHead := s.head, sawHead := |s.popLog|,
         producer := if Sub(s.tail, s.head) != s.capacity then PWrite(v)
                     else if call.Once? then PIdle else PWait(v, call.seen))
    case PWrite(v) => s.(slots := s.slots[Slot(s.tail, s.capacity) := Some(v)], producer := PPublish(v))
    case PPublish(v) => s.(tail := Wrap(s.tail + 1), pushLog := s.pushLog + [v], producer := PBump)
    case PBump => s.(pushed := s.pushed + 1, producer := PNotify)
    case PNotify => s.(consumer := WakeConsumer(s.consumer), producer := PIdle)
    case PWait(v, seen) => s.(producer := if s.popped == seen then PParked(v, seen) else PEpoch(v))
  }

  function ConsumerStep(s: Ring): Ring
    requires s.capacity > 0 && |s.slots| == s.capacity
    requires Enabled(s, ConsumerMoves)
    requires s.consumer.CRead? ==> s.slots[Slot(s.head, s.capacity)].Some?
  {
    match s.consumer
    case CEpoch => s.(consumer := CCheck(First(s.pushed)))
    case CCheck(pop) => s.(consumer := if s.head == s.cachedTail then CLoadTail(pop) else CRead)
    case CLoadTail(pop) =>
      s.(cachedTail := s.tail, sawTail := |s.pushLog|,
         consumer := if s.head != s.tail then CRead
                     else if pop.First? then CClosed(pop.seen) else CEnd)
    case CRead =>
      s.(slots := s.slots[Slot(s.head, s.capacity) := None],
         consumer := CPublish(s.slots[Slot(s.head, s.capacity)].value))
    case CPublish(v) => s.(head := Wrap(s.head + 1), popLog := s.popLog + [v], consumer := CBump)
    case CBump => s.(popped := s.popped + 1, consumer := CNotify)
    case CNotify => s.(producer := WakeProducer(s.producer), consumer := CIdle)
    case CClosed(seen) => s.(consumer := if s.closed then CCheck(Final) else CWait(seen))
    case CWait(seen) => s.(consumer := if s.pushed == seen then CParked(seen) else CEpoch)
  }

  function Step(s: Ring, e: Event): Ring
    requires s.capacity > 0 && |s.slots| == s.capacity
    requires Enabled(s, e)
    requires e.ConsumerMoves? && s.consumer.CRead? ==> s.slots[Slot(s.head, s.capacity)].Some?
  {
    var k := s.closers;
    match e
    case CallTryPush(v) => s.(producer := PClosedOnce(v))
    case CallPush(v) => s.(producer := PEpoch(v))
    case ProducerMoves => ProducerStep(s)
    case CallPop => s.(consumer := CEpoch)
    case ConsumerMoves => ConsumerStep(s)
    case CallClose =>
      s.(closed := true, closers := k.(bumpPushed := k.bumpPushed + 1),
         closedAt := if s.closed then s.closedAt else |s.pushLog|,
         raced := if s.closed then s.raced else Committed(s.producer))
    case BumpPushed =>
      s.(pushed := s.pushed + 1,
         closers := k.(bumpPushed := k.bumpPushed - 1, notifyPushed := k.notifyPushed + 1))
    case NotifyPushed =>
      s.(consumer := WakeConsumer(s.consumer),
         closers := k.(notifyPushed := k.notifyPushed - 1, bumpPopped := k.bumpPopped + 1))
    case BumpPopped =>
      s.(popped := s.popped + 1,
         closers := k.(bumpPopped := k.bumpPopped - 1, notifyPopped := k.notifyPopped + 1))
    case NotifyPopped =>
      s.(producer := WakeProducer(s.producer), closers := k.(notifyPopped := k.notifyPopped - 1))
  }

  // ---------- the invariant ----------

  /** Pops whose slot is already empty: one more than counted while the consumer is about to store `head`. */
  ghost function Emptied(s: Ring): nat {
    |s.popLog| + if s.consumer.CPublish? then 1 else 0
  }

  /** Pushes whose slot is already full. */
  ghost function Filled(s: Ring): nat {
    |s.pushLog| + if s.producer.PPublish? then 1 else 0
  }

  /** The words are the counters modulo 2^64, and the cached ones lag behind on the safe side. */
  ghost predicate Counters(s: Ring) {
    var h, t := |s.popLog|, |s.pushLog|;
    && Capacity(s.capacity) && 1 <= s.capacity < WORD && |s.slots| == s.capacity
    && s.head == Wrap(h) && s.tail == Wrap(t)
    && s.cachedHead == Wrap(s.sawHead) && s.cachedTail == Wrap(s.sawTail)
    && s.sawHead <= h <= s.sawTail <= t <= s.sawHead + s.capacity
    && (s.producer.PWrite? || s.producer.PPublish? ==> t < s.sawHead + s.capacity)
    && (s.producer.PLoadHead? ==> t == s.sawHead + s.capacity)
    && (s.consumer.CRead? || s.consumer.CPublish? ==> h < s.sawTail)
    && (s.consumer.CLoadTail? ==> h == s.sawTail)
  }

  /** The filled slots hold the pushed values that are not yet popped; all others are empty. */
  ghost predicate Contents(s: Ring)
    requires s.capacity > 0 && |s.slots| == s.capacity
  {
    && s.popLog <= s.pushLog
    && (forall k :: Emptied(s) <= k < |s.pushLog| ==> s.slots[Slot(k, s.capacity)] == Some(s.pushLog[k]))
    && (forall k :: Filled(s) <= k < Emptied(s) + s.capacity ==> s.slots[Slot(k, s.capacity)] == None)
    && (s.producer.PPublish? ==> s.slots[Slot(|s.pushLog|, s.capacity)] == Some(s.producer.v))
    && (s.consumer.CPublish? ==> |s.popLog| < |s.pushLog| && s.consumer.v == s.pushLog[|s.popLog|])
  }

  /** Some thread will still bump `pushed`, or has done so and will still notify. */
  predicate PushBumpPending(s: Ring) {
    s.producer == PBump || s.closers.bumpPushed > 0
  }

  predicate PushNotifyPending(s: Ring) {
    s.producer == PNotify || s.closers.notifyPushed > 0
  }

  predicate PopBumpPending(s: Ring) {
    s.consumer == CBump || s.closers.bumpPushed > 0 || s.closers.notifyPushed > 0 || s.closers.bumpPopped > 0
  }

  predicate PopNotifyPending(s: Ring) {
    s.consumer == CNotify || s.closers.notifyPopped > 0
  }

  /** What a consumer that has seen an empty ring under epoch `seen` may rely on. */
  ghost predicate ConsumerWaits(s: Ring) {
    var h, t := |s.popLog|, |s.pushLog|;
    match s.consumer
    case CCheck(First(seen)) => seen <= s.pushed
    case CLoadTail(First(seen)) => seen <= s.pushed
    case CCheck(Final) => s.closed
    case CLoadTail(Final) => s.closed
    case CEnd => s.closed && h >= s.closedAt
    case CClosed(seen) =>
      seen <= s.pushed && h == s.sawTail && (t > h ==> seen < s.pushed || s.producer == PBump)
    case CWait(seen) =>
      && seen <= s.pushed && h == s.sawTail
      && (t > h ==> seen < s.pushed || s.producer == PBump)
      && (s.closed ==> seen < s.pushed || s.closers.bumpPushed > 0)
    case CParked(seen) =>
      && seen <= s.pushed && h == s.sawTail
      && (t > h ==> seen < s.pushed || s.producer == PBump)
      && (s.closed ==> seen < s.pushed || s.closers.bumpPushed > 0)
      && (seen < s.pushed ==> PushNotifyPending(s))
    case _ => true
  }

  ghost predicate CloseReachesProducer(s: Ring, seen: nat) {
    s.closed ==> seen < s.popped || s.closers.bumpPushed > 0 || s.closers.notifyPushed > 0 || s.closers.bumpPopped > 0
  }

  /** What a producer that has seen a full ring under epoch `seen` may rely on. */
  ghost predicate ProducerWaits(s: Ring) {
    var h, t := |s.popLog|, |s.pushLog|;
    match s.producer
    case PClosed(_, seen) => seen <= s.popped
    case PCheck(_, Blocking(seen)) => seen <= s.popped && CloseReachesProducer(s, seen)
    case PLoadHead(_, Blocking(seen)) => seen <= s.popped && CloseReachesProducer(s, seen)
    case PWait(_, seen) =>
      && seen <= s.popped && t == s.sawHead + s.capacity && CloseReachesProducer(s, seen)
      && (h > s.sawHead ==> seen < s.popped || s.consumer == CBump)
    case PParked(_, seen) =>
      && seen <= s.popped && t == s.sawHead + s.capacity && CloseReachesProducer(s, seen)
      && (h > s.sawHead ==> seen < s.popped || s.consumer == CBump)
      && (seen < s.popped ==> PopNotifyPending(s))
    case _ => true
  }

  /** After the first close at most one push lands, and only one that had already passed its check. */
  ghost predicate ClosedLedger(s: Ring) {
    var inFlight := if Committed(s.producer) then 1 else 0;
    s.closed ==>
      && s.closedAt <= |s.pushLog| && |s.pushLog| + inFlight <= s.closedAt + 1
      && (!s.raced ==> |s.pushLog| + inFlight == s.closedAt)
  }

  ghost predicate Inv(s: Ring) {
    Counters(s) && Contents(s) && ConsumerWaits(s) && ProducerWaits(s) && ClosedLedger(s)
  }

  lemma InitHolds(minCapacity: nat)
    requires minCapacity <= MAX_CAPACITY
    ensures Inv(Init(minCapacity))
  {
    CapacityBounds(Init(minCapacity).capacity);
  }

  /** Whatever the words say about fullness and emptiness, the unwrapped counters say too. */
  lemma WordsAgree(s: Ring)
    requires Counters(s)
    ensures Sub(s.tail, s.cachedHead) == |s.pushLog| - s.sawHead
    ensures Sub(s.tail, s.head) == |s.pushLog| - |s.popLog|
    ensures s.head == s.cachedTail <==> |s.popLog| == s.sawTail
    ensures s.head == s.tail <==> |s.popLog| == |s.pushLog|
    ensures Slot(s.head, s.capacity) == Slot(|s.popLog|, s.capacity)
    ensures Slot(s.tail, s.capacity) == Slot(|s.pushLog|, s.capacity)
    ensures Wrap(s.head + 1) == Wrap(|s.popLog| + 1) && Wrap(s.tail + 1) == Wrap(|s.pushLog| + 1)
  {
    hide Capacity, Sub, Wrap, Slot;
    var h, t := |s.popLog|, |s.pushLog|;
    WrapKeepsDistance(t, s.sawHead);
    WrapKeepsDistance(t, h);
    WrapKeepsDistance(s.sawTail, h);
    WrapKeepsSlot(h, s.capacity);
    WrapKeepsSlot(t, s.capacity);
    WrapNext(h);
    WrapNext(t);
  }

  /** A step that is enabled can be taken: the consumer never reads an empty slot. */
  ghost predicate Ready(s: Ring, e: Event) {
    && s.capacity > 0 && |s.slots| == s.capacity && Enabled(s, e)
    && (e.ConsumerMoves? && s.consumer.CRead? ==> s.slots[Slot(s.head, s.capacity)].Some?)
  }

  lemma EnabledIsReady(s: Ring, e: Event)
    requires Inv(s) && Enabled(s, e)
    ensures Ready(s, e)
  {
    hide ConsumerWaits, ProducerWaits, ClosedLedger;
    WordsAgree(s);
  }

  /** Within one lap, a slot belongs to one counter. */
  lemma OneLap(from: nat, at: nat, c: nat)
    requires from <= at < from + c
    ensures forall k :: from <= k < from + c && k != at ==> Slot(k, c) != Slot(at, c)
  {
    hide Slot;
    forall k | from <= k < from + c && k != at ensures Slot(k, c) != Slot(at, c) {
      if k < at {
        SlotsDiffer(k, at, c);
      } else {
        SlotsDiffer(at, k, c);
      }
    }
  }

  lemma WriteKeepsContents(s: Ring)
    requires Counters(s) && Contents(s) && Ready(s, ProducerMoves) && s.producer.PWrite?
    ensures Contents(ProducerStep(s))
  {
    hide Capacity, Sub, Wrap, Slot;
    WordsAgree(s);
    OneLap(Emptied(s), |s.pushLog|, s.capacity);
  }

  lemma ReadKeepsContents(s: Ring)
    requires Counters(s) && Contents(s) && Ready(s, ConsumerMoves) && s.consumer.CRead?
    ensures Contents(ConsumerStep(s))
  {
    hide Capacity, Sub, Wrap, Slot;
    WordsAgree(s);
    OneLap(|s.popLog|, |s.popLog|, s.capacity);
    SlotsRepeat(|s.popLog|, s.capacity);
  }

  lemma ProducerKeepsCounters(s: Ring)
    requires Counters(s) && Ready(s, ProducerMoves)
    ensures Counters(ProducerStep(s))
  {
    hide Capacity, Sub, Wrap, Slot;
    WordsAgree(s);
  }

  lemma ConsumerKeepsCounters(s: Ring)
    requires Counters(s) && Ready(s, ConsumerMoves)
    ensures Counters(ConsumerStep(s))
  {
    hide Capacity, Sub, Wrap, Slot;
    WordsAgree(s);
  }

  lemma PublishKeepsContents(s: Ring)
    requires Counters(s) && Contents(s) && Ready(s, ProducerMoves) && s.producer.PPublish?
    ensures Contents(ProducerStep(s))
  {
    hide Capacity, Sub, Wrap, Slot;
  }

  lemma RetireKeepsContents(s: Ring)
    requires Counters(s) && Contents(s) && Ready(s, ConsumerMoves) && s.consumer.CPublish?
    ensures Contents(ConsumerStep(s))
  {
    hide Capacity, Sub, Wrap, Slot;
  }

  /** Contents depends on the slots, the logs, and who is between a slot access and a store. */
  lemma ContentsFrame(s: Ring, t: Ring)
    requires s.capacity > 0 && |s.slots| == s.capacity && Contents(s)
    requires t.capacity == s.capacity && t.slots == s.slots && t.pushLog == s.pushLog && t.popLog == s.popLog
    requires t.producer == s.producer || (!t.producer.PPublish? && !s.producer.PPublish?)
    requires t.consumer == s.consumer || (!t.consumer.CPublish? && !s.consumer.CPublish?)
    ensures Contents(t)
  {
  }

  lemma ProducerKeepsContents(s: Ring)
    requires Counters(s) && Contents(s) && Ready(s, ProducerMoves)
    ensures Contents(ProducerStep(s))
  {
    hide Capacity, Sub, Wrap, Slot, Contents;
    if s.producer.PWrite? {
      WriteKeepsContents(s);
    } else if s.producer.PPublish? {
      PublishKeepsContents(s);
    } else {
      ContentsFrame(s, ProducerStep(s));
    }
  }

  lemma ConsumerKeepsContents(s: Ring)
    requires Counters(s) && Contents(s) && Ready(s, ConsumerMoves)
    ensures Contents(ConsumerStep(s))
  {
    hide Capacity, Sub, Wrap, Slot, Contents;
    if s.consumer.CRead? {
      ReadKeepsContents(s);
    } else if s.consumer.CPublish? {
      RetireKeepsContents(s);
    } else {
      ContentsFrame(s, ConsumerStep(s));
    }
  }

  lemma ProducerKeepsWaits(s: Ring)
    requires Counters(s) && ConsumerWaits(s) && ProducerWaits(s) && Ready(s, ProducerMoves)
    ensures ConsumerWaits(ProducerStep(s)) && ProducerWaits(ProducerStep(s))
  {
    hide Capacity, Sub, Wrap, Slot;
    WordsAgree(s);
  }

  lemma ConsumerKeepsConsumerWaits(s: Ring)
    requires Counters(s) && ConsumerWaits(s) && ClosedLedger(s) && Ready(s, ConsumerMoves)
    ensures ConsumerWaits(ConsumerStep(s))
  {
    hide Capacity, Sub, Wrap, Slot;
    WordsAgree(s);
  }

  lemma ConsumerKeepsProducerWaits(s: Ring)
    requires Counters(s) && ProducerWaits(s) && Ready(s, ConsumerMoves)
    ensures ProducerWaits(ConsumerStep(s))
  {
    hide Capacity, Sub, Wrap, Slot;
  }

  lemma MovesKeepLedger(s: Ring)
    requires ClosedLedger(s)
    ensures Ready(s, ProducerMoves) ==> ClosedLedger(ProducerStep(s))
    ensures Ready(s, ConsumerMoves) ==> ClosedLedger(ConsumerStep(s))
  {
    hide Sub, Wrap, Slot;
  }

  /** Starting a call, and every step of `close()`, keeps the invariant. */
  lemma CallsKeepInv(s: Ring, e: Event)
    requires Inv(s) && Ready(s, e) && !e.ProducerMoves? && !e.ConsumerMoves?
    ensures Inv(Step(s, e))
  {
    hide Capacity, Sub, Wrap, Slot, Contents;
    ContentsFrame(s, Step(s, e));
  }

  /** Every step of every thread keeps the invariant. */
  lemma StepKeepsInv(s: Ring, e: Event)
    requires Inv(s) && Enabled(s, e)
    ensures Ready(s, e) && Inv(Step(s, e))
  {
    hide Counters, Contents, ConsumerWaits, ProducerWaits, ClosedLedger, ProducerStep, ConsumerStep;
    EnabledIsReady(s, e);
    MovesKeepLedger(s);
    if e.ProducerMoves? {
      ProducerKeepsCounters(s);
      ProducerKeepsContents(s);
      ProducerKeepsWaits(s);
    } else if e.ConsumerMoves? {
      ConsumerKeepsCounters(s);
      ConsumerKeepsContents(s);
      ConsumerKeepsConsumerWaits(s);
      ConsumerKeepsProducerWaits(s);
    } else {
      CallsKeepInv(s, e);
    }
  }

  // ---------- what a caller can see ----------

  /** The bounded queue that the ring is to its callers. */
  datatype Fifo = Fifo(items: seq<Value>, closed: bool)

  datatype Observed =
    | Silent | Pushed(v: Value) | Popped(v: Value) | ClosedNow
    | RefusedFull(v: Value) | RefusedClosed(v: Value) | Ended

  /** What a step of the ring shows, judged by the words and slots alone. */
  function Observe(s: Ring, e: Event): Observed {
    if e.CallClose? then ClosedNow
    else if e.ProducerMoves? then
      match s.producer
      case PPublish(v) => Pushed(v)
      case PClosedOnce(v) => if s.closed then RefusedClosed(v) else Silent
      case PClosed(v, _) => if s.closed then RefusedClosed(v) else Silent
      case PLoadHead(v, Once) => if Sub(s.tail, s.head) == s.capacity then RefusedFull(v) else Silent
      case _ => Silent
    else if e.ConsumerMoves? then
      match s.consumer
      case CPublish(v) => Popped(v)
      case CLoadTail(Final) => if s.head == s.tail then Ended else Silent
      case _ => Silent
    else Silent
  }

  /** What the queue does on an observation, and `None` if it does not allow it. */
  function FifoNext(capacity: nat, q: Fifo, o: Observed): Option<Fifo> {
    match o
    case Silent => Some(q)
    case Pushed(v) => if |q.items| < capacity then Some(q.(items := q.items + [v])) else None
    case Popped(v) => if |q.items| > 0 && q.items[0] == v then Some(q.(items := q.items[1..])) else None
    case ClosedNow => Some(q.(closed := true))
    case RefusedFull(_) => if |q.items| == capacity then Some(q) else None
    case RefusedClosed(_) => if q.closed then Some(q) else None
    case Ended => if q.closed && q.items == [] then Some(q) else None
  }

  ghost function Abstract(s: Ring): Fifo
    requires s.popLog <= s.pushLog
  {
    Fifo(s.pushLog[|s.popLog|..], s.closed)
  }

  lemma ProducerRefines(s: Ring)
    requires Inv(s) && Ready(s, ProducerMoves)
    ensures var t := ProducerStep(s);
      t.popLog <= t.pushLog && t.capacity == s.capacity &&
      FifoNext(s.capacity, Abstract(s), Observe(s, ProducerMoves)) == Some(Abstract(t))
  {
    hide ConsumerWaits, ProducerWaits, ClosedLedger, Wrap, Slot, Sub, Capacity;
    WordsAgree(s);
    var h, t := |s.popLog|, ProducerStep(s);
    assert t.pushLog != s.pushLog ==> t.pushLog[h..] == s.pushLog[h..] + [s.producer.v];
  }

  lemma ConsumerRefines(s: Ring)
    requires Inv(s) && Ready(s, ConsumerMoves)
    ensures var t := ConsumerStep(s);
      t.popLog <= t.pushLog && t.capacity == s.capacity &&
      FifoNext(s.capacity, Abstract(s), Observe(s, ConsumerMoves)) == Some(Abstract(t))
  {
    hide ConsumerWaits, ProducerWaits, ClosedLedger, Wrap, Slot, Sub, Capacity;
    WordsAgree(s);
    if s.consumer == CLoadTail(Final) {
      FinalSeesClosed(s);
    }
    var h, t := |s.popLog|, ConsumerStep(s);
    assert t.popLog != s.popLog ==> s.pushLog[h..][1..] == s.pushLog[h + 1..];
  }

  /** One step of the ring is one step of the queue. */
  lemma StepRefines(s: Ring, e: Event)
    requires Inv(s) && Ready(s, e)
    ensures Inv(Step(s, e)) && Step(s, e).capacity == s.capacity
    ensures FifoNext(s.capacity, Abstract(s), Observe(s, e)) == Some(Abstract(Step(s, e)))
  {
    hide ConsumerWaits, ProducerWaits, ClosedLedger, ProducerStep, ConsumerStep;
    StepKeepsInv(s, e);
    if e.ProducerMoves? {
      ProducerRefines(s);
    } else if e.ConsumerMoves? {
      ConsumerRefines(s);
    }
  }

  lemma FinalSeesClosed(s: Ring)
    requires Inv(s) && s.consumer == CLoadTail(Final)
    ensures s.closed
  {
  }

  /** A schedule that can be followed from s. */
  ghost predicate Follows(s: Ring, es: seq<Event>)
    decreases |es|
  {
    es == [] || (Ready(s, es[0]) && Follows(Step(s, es[0]), es[1..]))
  }

  ghost function Run(s: Ring, es: seq<Event>): Ring
    requires Follows(s, es)
    decreases |es|
  {
    if es == [] then s else Run(Step(s, es[0]), es[1..])
  }

  ghost function Trace(s: Ring, es: seq<Event>): seq<Observed>
    requires Follows(s, es)
    decreases |es|
  {
    if es == [] then [] else [Observe(s, es[0])] + Trace(Step(s, es[0]), es[1..])
  }

  function FifoRun(capacity: nat, q: Fifo, os: seq<Observed>): Option<Fifo>
    decreases |os|
  {
    if os == [] then Some(q)
    else match FifoNext(capacity, q, os[0])
         case None => None
         case Some(next) => FifoRun(capacity, next, os[1..])
  }

  /** Under every interleaving the ring is a bounded first-in first-out queue, and keeps its invariant. */
  lemma {:induction false} RunRefines(s: Ring, es: seq<Event>)
    requires Inv(s) && Follows(s, es)
    ensures Inv(Run(s, es))
    ensures FifoRun(s.capacity, Abstract(s), Trace(s, es)) == Some(Abstract(Run(s, es)))
    decreases |es|
  {
    hide Step, Observe, FifoNext, ConsumerWaits, ProducerWaits, ClosedLedger;
    if es != [] {
      StepRefines(s, es[0]);
      RunRefines(Step(s, es[0]), es[1..]);
      assert Trace(s, es)[1..] == Trace(Step(s, es[0]), es[1..]);
    }
  }

  /** The theorem for a ring as constructed: a queue that starts empty and open. */
  lemma RingIsFifo(minCapacity: nat, es: seq<Event>)
    requires minCapacity <= MAX_CAPACITY && Follows(Init(minCapacity), es)
    ensures var s, t := Init(minCapacity), Run(Init(minCapacity), es);
      && Inv(t) && minCapacity <= s.capacity && (minCapacity > 0 ==> s.capacity < 2 * minCapacity)
      && FifoRun(s.capacity, Fifo([], false), Trace(s, es)) == Some(Abstract(t))
      && t.popLog <= t.pushLog && |t.pushLog| - |t.popLog| <= s.capacity
  {
    InitHolds(minCapacity);
    RunRefines(Init(minCapacity), es);
    CapacityConstant(Init(minCapacity), es);
  }

  lemma {:induction false} CapacityConstant(s: Ring, es: seq<Event>)
    requires Follows(s, es)
    ensures Run(s, es).capacity == s.capacity
    decreases |es|
  {
    if es != [] {
      CapacityConstant(Step(s, es[0]), es[1..]);
    }
  }

  // ---------- consequences of the invariant ----------

  /** The slot a producer writes is empty: nothing is overwritten before it is popped. */
  lemma NothingIsOverwritten(s: Ring)
    requires Inv(s) && s.producer.PWrite?
    ensures s.slots[Slot(s.tail, s.capacity)] == None
  {
    hide ConsumerWaits, ProducerWaits, ClosedLedger, Wrap, Slot, Sub, Capacity;
    WordsAgree(s);
  }

  /** Nobody sleeps through the event he waits for: a wake-up is still on its way. */
  lemma NoLostWakeup(s: Ring)
    requires Inv(s)
    ensures s.consumer.CParked? && (|s.popLog| < |s.pushLog| || s.closed) ==>
      PushBumpPending(s) || PushNotifyPending(s)
    ensures s.producer.PParked? && (|s.pushLog| - |s.popLog| < s.capacity || s.closed) ==>
      PopBumpPending(s) || PopNotifyPending(s)
  {
    hide Wrap, Slot, Sub, Capacity, Contents, ClosedLedger;
  }

  /**
    When `pop` reports the end, everything pushed before the first `close` has been popped. At most
    one value can have been pushed after it, and none unless a push was past its check at that moment.
   */
  lemma EndMeansDrained(s: Ring)
    requires Inv(s) && s.consumer.CEnd?
    ensures s.closed && s.pushLog[..s.closedAt] <= s.popLog
    ensures |s.pushLog| <= s.closedAt + 1
    ensures !s.raced ==> s.popLog == s.pushLog
  {
    hide Wrap, Slot, Sub, Capacity;
  }
}
