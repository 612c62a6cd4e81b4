/**
  What the abstract hand-off may do, the queue behind it allows: each step of a push or a pop is a
  step of the bounded queue that a ring refines, or of the one-place mailbox. The other direction,
  that it may do all that rings and mailboxes do, is in `HandOffRefinement`.
 */
module HandOffQueues {
  import opened Common
  import opened HandOff
  import Ring = SpscRing
  import Mailbox = LatestSlot

  function Ids(items: seq<Frame>): (s: seq<nat>)
    ensures |s| == |items| && forall i :: 0 <= i < |s| ==> s[i] == items[i].id
  {
    seq(|items|, i requires 0 <= i < |items| => items[i].id)
  }

  /** The hand-off as the queue a ring is. */
  function AsFifo(q: Queue): Ring.Fifo {
    Ring.Fifo(Ids(q.items), q.closed)
  }

  /** What a step of a push shows, over a ring. */
  function RingShows(policy: Policy, capacity: nat, q: Queue, p: Push): Ring.Observed
    requires CanPush(policy, capacity, q, p)
  {
    match p
    case Checking(f) => if q.closed then Ring.RefusedClosed(f.id) else Ring.Silent
    case Inserting(f) => if Full(policy, capacity, q) then Ring.RefusedFull(f.id) else Ring.Pushed(f.id)
    case _ => Ring.Silent
  }

  /** Over a ring every step of a push is allowed by the bounded queue, with the result the caller gets. */
  lemma RingAllowsPush(policy: Policy, capacity: nat, q: Queue, p: Push)
    requires !policy.Latest? && CanPush(policy, capacity, q, p) && Bounded(policy, capacity, q)
    requires !p.Publishing?
    ensures var (q', p') := PushStep(policy, capacity, q, p);
      && Ring.FifoNext(capacity, AsFifo(q), RingShows(policy, capacity, q, p)) == Some(AsFifo(q'))
      && match RingShows(policy, capacity, q, p)
         case RefusedClosed(v) => p' == Releasing(v, Closed)
         case RefusedFull(v) => p' == if policy.Block? then Waiting(p.f) else Releasing(v, DroppedIncoming)
         case Pushed(_) => p' == Returned(Accepted)
         case _ => InHand(p') == InHand(p)
  {
    var (q', p') := PushStep(policy, capacity, q, p);
    if p.Inserting? && !Full(policy, capacity, q) {
      assert Ids(q.items + [p.f]) == Ids(q.items) + [p.f.id];
    }
  }

  /** A pop takes the oldest element, or finds the queue closed and empty. */
  lemma RingAllowsPop(capacity: nat, q: Queue)
    ensures |q.items| > 0 ==>
      Ring.FifoNext(capacity, AsFifo(q), Ring.Popped(q.items[0].id)) == Some(AsFifo(q.(items := q.items[1..])))
    ensures q.items == [] && q.closed <==> Ring.FifoNext(capacity, AsFifo(q), Ring.Ended) == Some(AsFifo(q))
  {
    if |q.items| > 0 {
      assert Ids(q.items[1..]) == Ids(q.items)[1..];
    }
  }

  /** The hand-off as the box a mailbox is. */
  function AsBox(q: Queue): Mailbox.Box
    requires |q.items| <= 1
  {
    Mailbox.Box(if q.items == [] then None else Some(q.items[0].id), q.closed, None)
  }

  /**
    Over a mailbox an insertion is a publish followed by its return: the box takes the new frame,
    and hands back exactly the frame the push is then about to release.
   */
  lemma MailboxAllowsPush(capacity: nat, q: Queue, f: Frame)
    requires |q.items| <= 1
    ensures var (q', p') := PushStep(Latest, capacity, q, Inserting(f));
      var displaced := AsBox(q).content;
      && |q'.items| == 1
      && (match Mailbox.BoxNext(AsBox(q), Mailbox.Published(f.id))
          case Some(b) => Mailbox.BoxNext(b, Mailbox.Returned(displaced)) == Some(AsBox(q'))
          case None => false)
      && p' == (match displaced case Some(id) => Releasing(id, ReplacedStale) case None => Returned(Accepted))
  {
  }

  /** A closed mailbox refuses; which result the caller gets depends on which look found it closed. */
  lemma MailboxRefuses(capacity: nat, q: Queue, f: Frame)
    requires |q.items| <= 1 && q.closed
    ensures Mailbox.BoxNext(AsBox(q), Mailbox.Refused(f.id)) == Some(AsBox(q))
    ensures PushStep(Latest, capacity, q, Checking(f)) == (q, Releasing(f.id, Closed))
    ensures PushStep(Latest, capacity, q, Publishing(f)) == (q, Releasing(f.id, ReplacedStale))
  {
  }

  /** A take moves the content out, or finds the mailbox closed and empty. */
  lemma MailboxAllowsPop(q: Queue)
    requires |q.items| <= 1
    ensures |q.items| > 0 ==>
      Mailbox.BoxNext(AsBox(q), Mailbox.Took(q.items[0].id)) == Some(AsBox(q.(items := q.items[1..])))
    ensures q.items == [] && q.closed <==> Mailbox.BoxNext(AsBox(q), Mailbox.Ended) == Some(AsBox(q))
  {
  }
}
