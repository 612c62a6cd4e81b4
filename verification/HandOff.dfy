/**
  The hand-off between two pipeline threads, over the abstract queues that the ring and the mailbox
  refine: a bounded queue for the FIFO policies, a one-place mailbox for `Latest`.

  A push is several steps: it looks at `closed` first, so a close by another thread can fall
  between the look and the insertion. Frames that a push drops are released in a step of their own.
 */
module HandOff {
  import opened Common

  datatype Policy = Latest | DropNewest | Block

  /** A pooled frame, and the sequence number written in it. */
  datatype Frame = Frame(id: nat, seqNo: nat)

  datatype Result = Accepted | ReplacedStale | DroppedIncoming | Closed

  predicate IsDrop(r: Result) {
    r.ReplacedStale? || r.DroppedIncoming?
  }

  datatype Queue = Queue(items: seq<Frame>, closed: bool)

  /** How far a push has got. */
  datatype Push =
    | Checking(f: Frame)               // about to look at `closed`
    | Publishing(f: Frame)             // mailbox only: `publish` is about to look again
    | Inserting(f: Frame)              // about to insert
    | Waiting(f: Frame)                // blocking only: asleep until there is room or the queue is closed
    | Releasing(id: nat, result: Result) // the frame that lost its place goes back to the pool
    | Returned(result: Result)

  /** The frame being pushed, while its push is undecided. */
  function InHand(p: Push): seq<Frame> {
    if p.Checking? || p.Publishing? || p.Inserting? || p.Waiting? then [p.f] else []
  }

  /** The frame that a push has decided to drop. */
  function Dropping(p: Push): Option<nat> {
    if p.Releasing? then Some(p.id) else None
  }

  /** Past the look at `closed`: a close no longer stops it. */
  predicate Committed(p: Push) {
    p.Publishing? || p.Inserting?
  }

  predicate Full(policy: Policy, capacity: nat, q: Queue) {
    !policy.Latest? && |q.items| >= capacity
  }

  /** Whether the push can move on by itself; releasing and returning are the caller's steps. */
  predicate CanPush(policy: Policy, capacity: nat, q: Queue, p: Push) {
    match p
    case Checking(_) => true
    case Publishing(_) => true
    case Inserting(_) => true
    case Waiting(_) => q.closed || !Full(policy, capacity, q)
    case _ => false
  }

  function PushStep(policy: Policy, capacity: nat, q: Queue, p: Push): (r: (Queue, Push))
    requires CanPush(policy, capacity, q, p)
  {
    match p
    case Checking(f) =>
      (q, if q.closed then Releasing(f.id, Closed) else if policy.Latest? then Publishing(f) else Inserting(f))
    case Publishing(f) =>
      (q, if q.closed then Releasing(f.id, ReplacedStale) else Inserting(f))
    case Waiting(f) => (q, Checking(f))
    case Inserting(f) =>
      match policy
      case Latest =>
        (q.(items := [f]), if |q.items| > 0 then Releasing(q.items[0].id, ReplacedStale) else Returned(Accepted))
      case DropNewest =>
        if Full(policy, capacity, q) then (q, Releasing(f.id, DroppedIncoming))
        else (q.(items := q.items + [f]), Returned(Accepted))
      case Block =>
        if Full(policy, capacity, q) then (q, Waiting(f))
        else (q.(items := q.items + [f]), Returned(Accepted))
  }

  /** Whether a step of a push put its frame into the queue. */
  predicate Inserts(p: Push, next: Push) {
    p.Inserting? && (next == Returned(Accepted) || (next.Releasing? && next.result.ReplacedStale?))
  }

  /** A queue never holds more than its capacity, and a mailbox never more than one frame. */
  ghost predicate Bounded(policy: Policy, capacity: nat, q: Queue) {
    |q.items| <= if policy.Latest? then 1 else capacity
  }

  /** What a step of a push does to the frames in the queue and in the pusher's hand, read front to back. */
  datatype Change = Kept | Lost(f: Frame)

  ghost function ChangeOf(policy: Policy, capacity: nat, q: Queue, p: Push): Change
    requires CanPush(policy, capacity, q, p)
  {
    var (_, next) := PushStep(policy, capacity, q, p);
    if !next.Releasing? then Kept
    else if p.Inserting? && policy.Latest? && |q.items| > 0 then Lost(q.items[0])
    else Lost(p.f)
  }

  /**
    Step by step, a push loses no frame silently: queue and hand together keep their frames in
    order, but for the one frame that the push is then about to release.
   */
  lemma PushKeepsOrLoses(policy: Policy, capacity: nat, q: Queue, p: Push)
    requires CanPush(policy, capacity, q, p) && Bounded(policy, capacity, q)
    ensures var (q', p') := PushStep(policy, capacity, q, p);
      && Bounded(policy, capacity, q') && q'.closed == q.closed
      && match ChangeOf(policy, capacity, q, p)
         case Kept => q'.items + InHand(p') == q.items + InHand(p) && Dropping(p') == None
         case Lost(f) =>
           && Dropping(p') == Some(f.id)
           && (q.items + InHand(p) == [f] + q'.items + InHand(p')
               || q.items + InHand(p) == q'.items + InHand(p') + [f])
  {
  }
}
