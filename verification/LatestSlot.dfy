/**
  The triple-buffer mailbox as an interleaving of atomic steps.

  One step is one access to a shared atomic or one access to a slot. Any number of threads may be
  inside `close()`; the state counts them per step. The logs, `closedAt` and `raced` are history:
  no step looks at them. The values given to `publish` are increasing numbers.
 */
module LatestSlot {
  import opened Common

  type Value = nat

  /** The shared byte: which slot is in the middle, and whether it holds a value nobody has taken. */
  datatype Middle = Middle(index: nat, unread: bool)

  datatype TakeCall = First(seen: nat) | Final

  datatype Producer =
    | PIdle
    | PClosed(v: Value)          // about to load `closed`
    | PWrite(v: Value)           // about to write the back slot
    | PExchange(v: Value)        // about to exchange back and middle
    | PDisplace                  // about to empty the new back slot
    | PBump(back: Option<Value>) // about to bump `published`, with the value to hand back
    | PNotify(back: Option<Value>)

  datatype Consumer =
    | CIdle
    | CEpoch
    | CPeek(take: TakeCall)      // about to look at the fresh bit
    | CExchange                  // about to exchange front and middle
    | CRead                      // about to move the value out of the front slot
    | CClosed(seen: nat)
    | CWait(seen: nat)
    | CParked(seen: nat)
    | CEnd                       // `take` has returned nothing

  datatype Mailbox = Mailbox(
    slots: seq<Option<Value>>, middle: Middle, back: nat, front: nat,
    published: nat, closed: bool,
    producer: Producer, consumer: Consumer, bumping: nat, notifying: nat,
    given: seq<Value>, exchanged: seq<Value>, granted: seq<Value>, taken: seq<Value>, handed: seq<Value>,
    closedAt: nat, raced: bool)

  function Init(): Mailbox {
    Mailbox([None, None, None], Middle(1, false), 0, 2, 0, false, PIdle, CIdle, 0, 0, [], [], [], [], [], 0, false)
  }

  datatype Event =
    | CallPublish(v: Value) | ProducerMoves
    | CallTake | ConsumerMoves
    | CallClose | BumpPublished | NotifyPublished

  /** Every publish passes a newer value than the one before. */
  predicate Newer(given: seq<Value>, v: Value) {
    |given| > 0 ==> given[|given| - 1] < v
  }

  predicate Enabled(s: Mailbox, e: Event) {
    match e
    case CallPublish(v) => s.producer == PIdle && Newer(s.given, v)
    case ProducerMoves => !s.producer.PIdle?
    case CallTake => s.consumer.CIdle? || s.consumer.CEnd?
    case ConsumerMoves => !s.consumer.CIdle? && !s.consumer.CEnd? && !s.consumer.CParked?
    case CallClose => true
    case BumpPublished => s.bumping > 0
    case NotifyPublished => s.notifying > 0
  }

  function Wake(c: Consumer): Consumer {
    if c.CParked? then CWait(c.seen) else c
  }

  /** The producer is past its check of `closed` and has not yet exchanged. */
  predicate Committed(p: Producer) {
    p.PWrite? || p.PExchange?
  }

  function Give(s: seq<Value>, v: Option<Value>): seq<Value> {
    if v.Some? then s + [v.value] else s
  }

  ghost predicate Shaped(s: Mailbox) {
    |s.slots| == 3 && s.back < 3 && s.front < 3 && s.middle.index < 3
  }

  function ProducerStep(s: Mailbox): Mailbox
    requires Shaped(s) && Enabled(s, ProducerMoves)
  {
    match s.producer
    case PClosed(v) =>
      if s.closed then s.(producer := PIdle, handed := s.handed + [v]) else s.(producer := PWrite(v))
    case PWrite(v) => s.(slots := s.slots[s.back := Some(v)], producer := PExchange(v))
    case PExchange(v) =>
      s.(middle := Middle(s.back, true), back := s.middle.index, exchanged := s.exchanged + [v],
         producer := if s.middle.unread then PDisplace else PBump(None))
    case PDisplace => s.(slots := s.slots[s.back := None], producer := PBump(s.slots[s.back]))
    case PBump(d) => s.(published := s.published + 1, producer := PNotify(d))
    case PNotify(d) => s.(consumer := Wake(s.consumer), producer := PIdle, handed := Give(s.handed, d))
  }

  function ConsumerStep(s: Mailbox): Mailbox
    requires Shaped(s) && Enabled(s, ConsumerMoves)
  {
    match s.consumer
    case CEpoch => s.(consumer := CPeek(First(s.published)))
    case CPeek(take) =>
      s.(consumer := if s.middle.unread then CExchange else if take.First? then CClosed(take.seen) else CEnd)
    case CExchange =>
      s.(middle := Middle(s.front, false), front := s.middle.index,
         granted := Give(s.granted, s.slots[s.middle.index]), consumer := CRead)
    case CRead => s.(slots := s.slots[s.front := None], taken := Give(s.taken, s.slots[s.front]), consumer := CIdle)
    case CClosed(seen) => s.(consumer := if s.closed then CPeek(Final) else CWait(seen))
    case CWait(seen) => s.(consumer := if s.published == seen then CParked(seen) else CEpoch)
  }

  function Step(s: Mailbox, e: Event): Mailbox
    requires Shaped(s) && Enabled(s, e)
  {
    match e
    case CallPublish(v) => s.(producer := PClosed(v), given := s.given + [v])
    case ProducerMoves => ProducerStep(s)
    case CallTake => s.(consumer := CEpoch)
    case ConsumerMoves => ConsumerStep(s)
    case CallClose =>
      s.(closed := true, bumping := s.bumping + 1,
         closedAt := if s.closed then s.closedAt else |s.exchanged|,
         raced := if s.closed then s.raced else Committed(s.producer))
    case BumpPublished => s.(published := s.published + 1, bumping := s.bumping - 1, notifying := s.notifying + 1)
    case NotifyPublished => s.(consumer := Wake(s.consumer), notifying := s.notifying - 1)
  }

  // ---------- the invariant ----------

  /** Back, middle and front are the three slots, so the two threads never share one. */
  ghost predicate Owned(s: Mailbox) {
    Shaped(s) && s.back != s.middle.index && s.middle.index != s.front && s.front != s.back
  }

  function Last(s: seq<Value>): (v: Option<Value>) {
    if |s| > 0 then Some(s[|s| - 1]) else None
  }

  /** What each of the three slots holds. */
  ghost predicate Contents(s: Mailbox)
    requires Shaped(s)
  {
    && (match s.producer
        case PExchange(v) => s.slots[s.back] == Some(v)
        case PDisplace => s.slots[s.back].Some?
        case _ => s.slots[s.back] == None)
    && (if s.middle.unread then s.slots[s.middle.index] == Last(s.exchanged) else s.slots[s.middle.index] == None)
    && (if s.consumer.CRead? then s.slots[s.front] == Last(s.granted) else s.slots[s.front] == None)
  }

  ghost predicate Increasing(s: seq<Value>) {
    forall i, j :: 0 <= i < j < |s| ==> s[i] < s[j]
  }

  ghost predicate Sub(s: seq<Value>, t: seq<Value>) {
    forall i :: 0 <= i < |s| ==> s[i] in t
  }

  /** The value that `publish` is working on, if it has not been exchanged in yet. */
  function Pending(p: Producer): Option<Value> {
    if p.PClosed? || p.PWrite? || p.PExchange? then Some(p.v) else None
  }

  /**
    Values are exchanged in, granted and taken in the order they were given; a stale middle means
    the newest was granted.
   */
  ghost predicate Ordered(s: Mailbox) {
    && Increasing(s.given) && Increasing(s.exchanged) && Increasing(s.granted)
    && Sub(s.exchanged, s.given) && Sub(s.granted, s.exchanged)
    && (Pending(s.producer).Some? ==> |s.given| > 0 && Last(s.given) == Pending(s.producer))
    && (Pending(s.producer).Some? && |s.exchanged| > 0 ==> s.exchanged[|s.exchanged| - 1] < Pending(s.producer).value)
    && (s.middle.unread ==>
         && |s.exchanged| > 0
         && (|s.granted| > 0 ==> s.granted[|s.granted| - 1] < s.exchanged[|s.exchanged| - 1]))
    && (!s.middle.unread ==> Last(s.granted) == Last(s.exchanged))
    && (s.consumer.CExchange? ==> s.middle.unread)
    && (if s.consumer.CRead?
        then |s.granted| > 0 && s.granted == s.taken + [s.granted[|s.granted| - 1]]
        else s.granted == s.taken)
  }

  function Has(place: Option<Value>, v: Value): nat {
    if place == Some(v) then 1 else 0
  }

  function InSlots(slots: seq<Option<Value>>, v: Value): nat
    requires |slots| == 3
  {
    Has(slots[0], v) + Has(slots[1], v) + Has(slots[2], v)
  }

  /** The producer's hands, outside the slots. */
  function InHand(p: Producer): Option<Value> {
    match p
    case PClosed(v) => Some(v)
    case PWrite(v) => Some(v)
    case PBump(d) => d
    case PNotify(d) => d
    case _ => None
  }

  /** Value v is as often taken, handed back, in a slot or in the producer's hands as it was given. */
  ghost predicate AccountedFor(s: Mailbox, v: Value)
    requires Shaped(s)
  {
    multiset(s.given)[v] ==
    multiset(s.taken)[v] + multiset(s.handed)[v] + InSlots(s.slots, v) + Has(InHand(s.producer), v)
  }

  /** Every value given to `publish` is in exactly one place. */
  ghost predicate Accounted(s: Mailbox)
    requires Shaped(s)
  {
    forall v :: AccountedFor(s, v)
  }

  predicate BumpPending(s: Mailbox) {
    s.producer.PDisplace? || s.producer.PBump? || s.bumping > 0
  }

  predicate NotifyPending(s: Mailbox) {
    s.producer.PNotify? || s.notifying > 0
  }

  /** What a consumer that has found the mailbox empty under epoch `seen` may rely on. */
  ghost predicate Waits(s: Mailbox) {
    match s.consumer
    case CPeek(First(seen)) => seen <= s.published
    case CPeek(Final) => s.closed
    case CClosed(seen) =>
      seen <= s.published && (s.middle.unread ==> seen < s.published || s.producer.PDisplace? || s.producer.PBump?)
    case CWait(seen) =>
      && seen <= s.published
      && (s.middle.unread ==> seen < s.published || s.producer.PDisplace? || s.producer.PBump?)
      && (s.closed ==> seen < s.published || s.bumping > 0)
    case CParked(seen) =>
      && seen <= s.published
      && (s.middle.unread ==> seen < s.published || s.producer.PDisplace? || s.producer.PBump?)
      && (s.closed ==> seen < s.published || s.bumping > 0)
      && (seen < s.published ==> NotifyPending(s))
    case _ => true
  }

  /** After the first close at most one value is exchanged in, and only one already past its check. */
  ghost predicate ClosedLedger(s: Mailbox) {
    var inFlight := if Committed(s.producer) then 1 else 0;
    && (s.closed ==>
         && s.closedAt <= |s.exchanged| && |s.exchanged| + inFlight <= s.closedAt + 1
         && (!s.raced ==> |s.exchanged| + inFlight == s.closedAt))
    && (s.consumer.CEnd? ==> s.closed && (s.middle.unread ==> |s.exchanged| == s.closedAt + 1))
  }

  ghost predicate Inv(s: Mailbox) {
    Owned(s) && Contents(s) && Ordered(s) && Accounted(s) && Waits(s) && ClosedLedger(s)
  }

  lemma InitHolds()
    ensures Inv(Init())
  {
  }

  lemma ProducerKeepsContents(s: Mailbox)
    requires Owned(s) && Contents(s) && Enabled(s, ProducerMoves)
    requires s.middle.unread ==> |s.exchanged| > 0
    ensures Owned(ProducerStep(s)) && Contents(ProducerStep(s))
  {
  }

  lemma ConsumerKeepsContents(s: Mailbox)
    requires Owned(s) && Contents(s) && Enabled(s, ConsumerMoves)
    requires s.consumer.CExchange? ==> s.middle.unread && |s.exchanged| > 0
    ensures Owned(ConsumerStep(s)) && Contents(ConsumerStep(s))
  {
  }

  lemma Appended(s: seq<Value>, v: Value, t: seq<Value>)
    requires Increasing(s) && Newer(s, v)
    ensures Increasing(s + [v]) && Last(s + [v]) == Some(v)
    ensures Sub(s, t) ==> Sub(s, t + [v]) && (v in t ==> Sub(s + [v], t)) && Sub(s + [v], t + [v])
  {
    assert forall x :: x in t ==> x in t + [v];
    if |s| > 0 {
      var k := |s| - 1;
      assert forall i :: 0 <= i < k ==> s[i] < s[k];
    }
  }

  /** Order depends on the logs, the middle, the consumer and the value that is pending. */
  lemma OrderFrame(s: Mailbox, t: Mailbox)
    requires Ordered(s)
    requires t.given == s.given && t.exchanged == s.exchanged && t.granted == s.granted && t.taken == s.taken
    requires t.middle == s.middle && (Pending(t.producer) == Pending(s.producer) || Pending(t.producer) == None)
    requires t.consumer == s.consumer ||
      (!t.consumer.CExchange? && !t.consumer.CRead? && !s.consumer.CExchange? && !s.consumer.CRead?)
    ensures Ordered(t)
  {
    hide Increasing, Sub;
  }

  lemma ExchangeKeepsOrder(s: Mailbox)
    requires Owned(s) && Ordered(s) && s.producer.PExchange?
    ensures Ordered(ProducerStep(s))
  {
    hide Increasing, Sub;
    var v := s.producer.v;
    Appended(s.exchanged, v, s.given);
    SubExtends(s.granted, s.exchanged, v);
    assert v in s.given;
  }

  lemma ProducerKeepsOrder(s: Mailbox)
    requires Owned(s) && Ordered(s) && Enabled(s, ProducerMoves)
    ensures Ordered(ProducerStep(s))
  {
    hide Ordered;
    if s.producer.PExchange? {
      ExchangeKeepsOrder(s);
    } else {
      OrderFrame(s, ProducerStep(s));
    }
  }

  lemma SubExtends(s: seq<Value>, t: seq<Value>, v: Value)
    requires Sub(s, t)
    ensures Sub(s, t + [v])
  {
  }

  lemma TakeKeepsOrder(s: Mailbox)
    requires Owned(s) && Contents(s) && Ordered(s)
    requires (s.consumer.CPeek? || s.consumer.CExchange? || s.consumer.CRead?)
    ensures Ordered(ConsumerStep(s))
  {
    hide Increasing, Sub;
    if s.consumer.CExchange? {
      var v := s.exchanged[|s.exchanged| - 1];
      Appended(s.granted, v, s.exchanged);
    }
  }

  lemma ConsumerKeepsOrder(s: Mailbox)
    requires Owned(s) && Contents(s) && Ordered(s) && Enabled(s, ConsumerMoves)
    ensures Ordered(ConsumerStep(s))
  {
    hide Ordered, Contents;
    if s.consumer.CPeek? || s.consumer.CExchange? || s.consumer.CRead? {
      TakeKeepsOrder(s);
    } else {
      OrderFrame(s, ConsumerStep(s));
    }
  }

  /** Appending a value, if any, counts it once more. */
  lemma GiveCounts(s: seq<Value>, d: Option<Value>, v: Value)
    ensures multiset(Give(s, d))[v] == multiset(s)[v] + Has(d, v)
  {
  }

  lemma AppendCounts(s: seq<Value>, x: Value, v: Value)
    ensures multiset(s + [x])[v] == multiset(s)[v] + Has(Some(x), v)
  {
  }

  lemma UpdateCounts(slots: seq<Option<Value>>, i: nat, d: Option<Value>, v: Value)
    requires |slots| == 3 && i < 3
    ensures InSlots(slots[i := d], v) == InSlots(slots, v) - Has(slots[i], v) + Has(d, v)
  {
  }

  lemma WriteKeepsAccount(s: Mailbox, v: Value)
    requires Owned(s) && AccountedFor(s, v) && s.producer.PWrite? && s.slots[s.back] == None
    ensures AccountedFor(ProducerStep(s), v)
  {
    hide InSlots;
    UpdateCounts(s.slots, s.back, Some(s.producer.v), v);
  }

  lemma DisplaceKeepsAccount(s: Mailbox, v: Value)
    requires Owned(s) && AccountedFor(s, v) && s.producer.PDisplace?
    ensures AccountedFor(ProducerStep(s), v)
  {
    hide InSlots;
    UpdateCounts(s.slots, s.back, None, v);
  }

  lemma ProducerKeepsAccount(s: Mailbox, v: Value)
    requires Owned(s) && AccountedFor(s, v) && Enabled(s, ProducerMoves)
    requires s.producer.PWrite? ==> s.slots[s.back] == None
    ensures Shaped(ProducerStep(s)) && AccountedFor(ProducerStep(s), v)
  {
    hide InSlots, Give;
    if s.producer.PWrite? {
      WriteKeepsAccount(s, v);
    } else if s.producer.PDisplace? {
      DisplaceKeepsAccount(s, v);
    } else {
      if s.producer.PClosed? {
        AppendCounts(s.handed, s.producer.v, v);
      } else if s.producer.PNotify? {
        GiveCounts(s.handed, s.producer.back, v);
      }
    }
  }

  lemma ConsumerKeepsAccount(s: Mailbox, v: Value)
    requires Owned(s) && AccountedFor(s, v) && Enabled(s, ConsumerMoves)
    ensures Shaped(ConsumerStep(s)) && AccountedFor(ConsumerStep(s), v)
  {
    hide InSlots, Give;
    match s.consumer {
      case CRead =>
        UpdateCounts(s.slots, s.front, None, v);
        GiveCounts(s.taken, s.slots[s.front], v);
      case CExchange =>
      case CPeek(_) =>
      case _ =>
    }
  }

  lemma CallKeepsAccount(s: Mailbox, e: Event, v: Value)
    requires Owned(s) && AccountedFor(s, v) && Enabled(s, e) && !e.ProducerMoves? && !e.ConsumerMoves?
    ensures Shaped(Step(s, e)) && AccountedFor(Step(s, e), v)
  {
    hide InSlots, Give;
    if e.CallPublish? {
      AppendCounts(s.given, e.v, v);
    }
  }

  lemma StepKeepsAccounts(s: Mailbox, e: Event)
    requires Owned(s) && Contents(s) && Accounted(s) && Enabled(s, e) && Shaped(Step(s, e))
    ensures Accounted(Step(s, e))
  {
    hide AccountedFor, ProducerStep, ConsumerStep;
    forall v ensures AccountedFor(Step(s, e), v) {
      if e.ProducerMoves? {
        ProducerKeepsAccount(s, v);
      } else if e.ConsumerMoves? {
        ConsumerKeepsAccount(s, v);
      } else {
        CallKeepsAccount(s, e, v);
      }
    }
  }

  lemma StepKeepsWaits(s: Mailbox, e: Event)
    requires Owned(s) && Waits(s) && Enabled(s, e)
    ensures Waits(Step(s, e))
  {
  }

  lemma StepKeepsLedger(s: Mailbox, e: Event)
    requires Owned(s) && ClosedLedger(s) && Waits(s) && Enabled(s, e)
    ensures ClosedLedger(Step(s, e))
  {
  }

  /** Starting a call, and every step of `close()`, keeps contents and order. */
  lemma CallsKeepOrder(s: Mailbox, e: Event)
    requires Owned(s) && Contents(s) && Ordered(s) && Enabled(s, e)
    requires !e.ProducerMoves? && !e.ConsumerMoves?
    ensures var t := Step(s, e); Owned(t) && Contents(t) && Ordered(t)
  {
    hide Increasing, Sub;
    if e.CallPublish? {
      Appended(s.given, e.v, s.given);
      SubExtends(s.exchanged, s.given, e.v);
      NewestIsNewer(s, e.v);
    }
  }

  lemma NewestIsNewer(s: Mailbox, v: Value)
    requires Ordered(s) && Newer(s.given, v)
    ensures Newer(s.exchanged, v)
  {
    if |s.exchanged| > 0 {
      var x := s.exchanged[|s.exchanged| - 1];
      var i :| 0 <= i < |s.given| && s.given[i] == x;
    }
  }

  /** Every step of every thread keeps the invariant. */
  lemma StepKeepsInv(s: Mailbox, e: Event)
    requires Inv(s) && Enabled(s, e)
    ensures Inv(Step(s, e))
  {
    hide Contents, Increasing, Sub, Accounted, Waits, ClosedLedger, ProducerStep, ConsumerStep;
    StepKeepsWaits(s, e);
    StepKeepsLedger(s, e);
    if e.ProducerMoves? {
      ProducerKeepsContents(s);
      ProducerKeepsOrder(s);
    } else if e.ConsumerMoves? {
      ConsumerKeepsContents(s);
      ConsumerKeepsOrder(s);
    } else {
      CallsKeepOrder(s, e);
    }
    StepKeepsAccounts(s, e);
  }

  // ---------- what a caller can see ----------

  /**
    The one-place mailbox that the buffer is to its callers; `returning` is what the current
    publish will hand back.
   */
  datatype Box = Box(content: Option<Value>, closed: bool, returning: Option<Value>)

  datatype Observed =
    | Silent | Published(v: Value) | Returned(d: Option<Value>) | Took(v: Value)
    | Refused(v: Value) | ClosedNow | Ended

  /** What a step shows, judged by the shared byte and the slots alone. */
  function Observe(s: Mailbox, e: Event): Observed
    requires Shaped(s)
  {
    if e.CallClose? then ClosedNow
    else if e.ProducerMoves? then
      match s.producer
      case PClosed(v) => if s.closed then Refused(v) else Silent
      case PExchange(v) => Published(v)
      case PNotify(d) => Returned(d)
      case _ => Silent
    else if e.ConsumerMoves? then
      match s.consumer
      case CPeek(Final) => if s.middle.unread then Silent else Ended
      case CExchange => if s.slots[s.middle.index].Some? then Took(s.slots[s.middle.index].value) else Ended
      case _ => Silent
    else Silent
  }

  /** What the mailbox does on an observation, and `None` if it does not allow it. */
  function BoxNext(b: Box, o: Observed): Option<Box> {
    match o
    case Silent => Some(b)
    case Published(v) => Some(Box(Some(v), b.closed, b.content))
    case Returned(d) => if d == b.returning then Some(b.(returning := None)) else None
    case Took(v) => if b.content == Some(v) then Some(b.(content := None)) else None
    case Refused(_) => if b.closed then Some(b) else None
    case ClosedNow => Some(b.(closed := true))
    case Ended => if b.closed && b.content == None then Some(b) else None
  }

  ghost function Abstract(s: Mailbox): Box
    requires Shaped(s)
  {
    Box(if s.middle.unread then s.slots[s.middle.index] else None, s.closed,
        match s.producer
        case PDisplace => s.slots[s.back]
        case PBump(d) => d
        case PNotify(d) => d
        case _ => None)
  }

  lemma ProducerRefines(s: Mailbox)
    requires Owned(s) && Contents(s) && Enabled(s, ProducerMoves)
    ensures Shaped(ProducerStep(s))
    ensures BoxNext(Abstract(s), Observe(s, ProducerMoves)) == Some(Abstract(ProducerStep(s)))
  {
  }

  lemma ConsumerRefines(s: Mailbox)
    requires Owned(s) && Enabled(s, ConsumerMoves)
    requires s.consumer.CExchange? ==> s.middle.unread && s.slots[s.middle.index].Some?
    requires s.consumer == CPeek(Final) ==> s.closed
    requires s.producer.PDisplace? ==> s.back != s.front
    ensures Shaped(ConsumerStep(s))
    ensures BoxNext(Abstract(s), Observe(s, ConsumerMoves)) == Some(Abstract(ConsumerStep(s)))
  {
  }

  lemma ReadyToTake(s: Mailbox)
    requires Inv(s)
    ensures s.consumer.CExchange? ==> s.middle.unread && s.slots[s.middle.index].Some?
    ensures s.consumer == CPeek(Final) ==> s.closed
  {
    hide Increasing, Sub, Accounted, ClosedLedger;
  }

  /** One step of the triple buffer is one step of the one-place mailbox. */
  lemma StepRefines(s: Mailbox, e: Event)
    requires Inv(s) && Enabled(s, e)
    ensures Inv(Step(s, e))
    ensures BoxNext(Abstract(s), Observe(s, e)) == Some(Abstract(Step(s, e)))
  {
    hide Contents, Ordered, Accounted, Waits, ClosedLedger, ProducerStep, ConsumerStep;
    StepKeepsInv(s, e);
    if e.ProducerMoves? {
      ProducerRefines(s);
    } else if e.ConsumerMoves? {
      ReadyToTake(s);
      ConsumerRefines(s);
    }
  }

  /** A schedule that can be followed from s. */
  ghost predicate Follows(s: Mailbox, es: seq<Event>)
    decreases |es|
  {
    es == [] || (Shaped(s) && Enabled(s, es[0]) && Follows(Step(s, es[0]), es[1..]))
  }

  ghost function Run(s: Mailbox, es: seq<Event>): Mailbox
    requires Follows(s, es)
    decreases |es|
  {
    if es == [] then s else Run(Step(s, es[0]), es[1..])
  }

  ghost function Trace(s: Mailbox, es: seq<Event>): seq<Observed>
    requires Follows(s, es)
    decreases |es|
  {
    if es == [] then [] else [Observe(s, es[0])] + Trace(Step(s, es[0]), es[1..])
  }

  function BoxRun(b: Box, os: seq<Observed>): Option<Box>
    decreases |os|
  {
    if os == [] then Some(b)
    else match BoxNext(b, os[0])
         case None => None
         case Some(next) => BoxRun(next, os[1..])
  }

  /** Under every interleaving the triple buffer is a one-place mailbox, and keeps its invariant. */
  lemma {:induction false} RunRefines(s: Mailbox, es: seq<Event>)
    requires Inv(s) && Follows(s, es)
    ensures Inv(Run(s, es))
    ensures BoxRun(Abstract(s), Trace(s, es)) == Some(Abstract(Run(s, es)))
    decreases |es|
  {
    hide Step, Observe, BoxNext, Contents, Ordered, Accounted, Waits, ClosedLedger, Enabled;
    if es != [] {
      StepRefines(s, es[0]);
      RunRefines(Step(s, es[0]), es[1..]);
      assert Trace(s, es)[1..] == Trace(Step(s, es[0]), es[1..]);
    }
  }

  /** The theorem for a mailbox as constructed, and what the invariant says about its logs. */
  lemma MailboxIsLatest(es: seq<Event>)
    requires Follows(Init(), es)
    ensures var t := Run(Init(), es);
      && Inv(t)
      && BoxRun(Box(None, false, None), Trace(Init(), es)) == Some(Abstract(t))
      && Increasing(t.taken) && Sub(t.taken, t.given)
      && forall v :: AccountedFor(t, v)
  {
    hide Step, Observe, BoxNext, Contents, Ordered, Waits, ClosedLedger, Enabled;
    InitHolds();
    RunRefines(Init(), es);
    var t := Run(Init(), es);
    TakenInOrder(t);
  }

  lemma TakenInOrder(s: Mailbox)
    requires Ordered(s)
    ensures Increasing(s.taken) && Sub(s.taken, s.given)
  {
    forall i | 0 <= i < |s.taken| ensures s.taken[i] == s.granted[i] && s.taken[i] in s.given {
      assert s.granted[i] in s.exchanged;
    }
  }

  // ---------- consequences of the invariant ----------

  /** A take always moves out the newest value exchanged in before it. */
  lemma TakesTheNewest(s: Mailbox)
    requires Inv(s) && s.consumer.CExchange?
    ensures |s.exchanged| > 0
    ensures s.slots[s.middle.index] == Last(s.exchanged) == Some(s.exchanged[|s.exchanged| - 1])
    ensures var t := ConsumerStep(s); Shaped(t) && t.slots[t.front] == Last(s.exchanged)
  {
    hide Increasing, Sub, Accounted, Waits, ClosedLedger;
  }

  /** The consumer does not sleep while there is a value or the mailbox is closed: a wake-up is on its way. */
  lemma NoLostWakeup(s: Mailbox)
    requires Inv(s) && s.consumer.CParked? && (s.middle.unread || s.closed)
    ensures BumpPending(s) || NotifyPending(s)
  {
    hide Increasing, Sub, Accounted, Contents, ClosedLedger;
  }

  /**
    When `take` reports the end, the last value exchanged in has been taken, unless a publish was
    past its check when the mailbox was closed; then at most that one value is left.
   */
  lemma EndMeansDelivered(s: Mailbox)
    requires Inv(s) && s.consumer.CEnd?
    ensures s.closed
    ensures !s.raced ==> !s.middle.unread && Last(s.taken) == Last(s.exchanged)
    ensures s.middle.unread ==> s.raced && |s.exchanged| == s.closedAt + 1
  {
    hide Increasing, Sub, Accounted, Contents;
  }
}
