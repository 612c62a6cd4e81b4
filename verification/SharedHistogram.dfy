/**
  Recording into one histogram from many threads. A recording is several atomic steps: three
  additions, then a compare-and-swap loop for the smallest and one for the largest value. Once no
  recording is under way, the counters are those of the samples, whatever the interleaving.
 */
module SharedHistogram {
  import opened LatencyHistogram
  import opened Words

  /** How far a recording has got. */
  datatype Recorder =
    | Idle
    | Bucketing(v: nat)
    | Counting(v: nat)
    | Summing(v: nat)
    | LoadingMin(v: nat)
    | SwappingMin(v: nat, seen: int)
    | LoadingMax(v: nat)
    | SwappingMax(v: nat, seen: int)

  /** All counters are 64-bit words. */
  datatype Counters = Counters(buckets: seq<nat>, count: nat, sumUs: nat, minUs: int, maxUs: int)

  /** `samples` is history: every value whose recording has begun. */
  datatype State = State(counters: Counters, recorders: seq<Recorder>, samples: seq<nat>)

  /** Thread t takes a step; `v` is the next latency if it is idle, `spurious` lets a weak exchange fail for nothing. */
  datatype Event = Event(t: nat, v: nat, spurious: bool)

  function Init(threads: nat): State {
    State(Counters(seq(BUCKETS, _ => 0), 0, 0, WORD - 1, 0), seq(threads, _ => Idle), [])
  }

  predicate Shaped(s: State) {
    |s.counters.buckets| == BUCKETS
  }

  predicate Enabled(s: State, e: Event) {
    e.t < |s.recorders| && e.v < WORD
  }

  /** After a look at the smallest value: try to lower it, or go on. */
  function AfterMin(v: nat, current: int): Recorder {
    if v < current then SwappingMin(v, current) else LoadingMax(v)
  }

  function AfterMax(v: nat, current: int): Recorder {
    if v > current then SwappingMax(v, current) else Idle
  }

  function Move(c: Counters, r: Recorder, e: Event): (next: (Counters, Recorder))
    requires |c.buckets| == BUCKETS
  {
    match r
    case Idle => (c, Bucketing(e.v))
    case Bucketing(v) =>
      IndexBounds(v);
      var i := BucketIndex(v);
      (c.(buckets := c.buckets[i := Wrap(c.buckets[i] + 1)]), Counting(v))
    case Counting(v) => (c.(count := Wrap(c.count + 1)), Summing(v))
    case Summing(v) => (c.(sumUs := Wrap(c.sumUs + v)), LoadingMin(v))
    case LoadingMin(v) => (c, AfterMin(v, c.minUs))
    case SwappingMin(v, seen) =>
      if c.minUs == seen && !e.spurious then (c.(minUs := v), LoadingMax(v)) else (c, AfterMin(v, c.minUs))
    case LoadingMax(v) => (c, AfterMax(v, c.maxUs))
    case SwappingMax(v, seen) =>
      if c.maxUs == seen && !e.spurious then (c.(maxUs := v), Idle) else (c, AfterMax(v, c.maxUs))
  }

  function Step(s: State, e: Event): State
    requires Shaped(s) && Enabled(s, e)
  {
    var (c, r) := Move(s.counters, s.recorders[e.t], e);
    State(c, s.recorders[e.t := r], if s.recorders[e.t].Idle? then s.samples + [e.v] else s.samples)
  }

  // ---------- what recordings under way still owe ----------

  datatype Which = OfBucket(i: nat) | OfCount | OfSum

  function Held(c: Counters, w: Which): nat
    requires |c.buckets| == BUCKETS && (w.OfBucket? ==> w.i < BUCKETS)
  {
    match w
    case OfBucket(i) => c.buckets[i]
    case OfCount => c.count
    case OfSum => c.sumUs
  }

  function Owed(r: Recorder, w: Which): nat {
    match w
    case OfBucket(i) => if r.Bucketing? && BucketIndex(r.v) == i then 1 else 0
    case OfCount => if r.Bucketing? || r.Counting? then 1 else 0
    case OfSum => if r.Bucketing? || r.Counting? || r.Summing? then r.v else 0
  }

  ghost function Due(samples: seq<nat>, w: Which): nat {
    match w
    case OfBucket(i) => CountIn(samples, i)
    case OfCount => |samples|
    case OfSum => Total(samples)
  }

  ghost function Owes(rs: seq<Recorder>, w: Which): nat {
    if |rs| == 0 then 0 else Owes(rs[..|rs| - 1], w) + Owed(rs[|rs| - 1], w)
  }

  lemma {:induction false} OwesUpdate(rs: seq<Recorder>, t: nat, r: Recorder, w: Which)
    requires t < |rs|
    ensures Owes(rs[t := r], w) == Owes(rs, w) - Owed(rs[t], w) + Owed(r, w)
  {
    hide Owed;
    var n := |rs| - 1;
    if t < n {
      assert rs[t := r][..n] == rs[..n][t := r];
      OwesUpdate(rs[..n], t, r, w);
    } else {
      assert rs[t := r][..n] == rs[..n];
    }
  }

  /** The value whose recording has yet to be compared with the smallest one. */
  function MinOwed(r: Recorder): int {
    if r.Idle? || r.LoadingMax? || r.SwappingMax? then WORD - 1 else r.v
  }

  function MaxOwed(r: Recorder): int {
    if r.Idle? then 0 else r.v
  }

  function Max(a: int, b: int): int { if a < b then b else a }

  ghost function MinOwes(rs: seq<Recorder>): int {
    if |rs| == 0 then WORD - 1 else Min(MinOwes(rs[..|rs| - 1]), MinOwed(rs[|rs| - 1]))
  }

  ghost function MaxOwes(rs: seq<Recorder>): int {
    if |rs| == 0 then 0 else Max(MaxOwes(rs[..|rs| - 1]), MaxOwed(rs[|rs| - 1]))
  }

  /** All but thread t. */
  lemma {:induction false} ExtremesApart(rs: seq<Recorder>, t: nat, r: Recorder)
    requires t < |rs|
    ensures MinOwes(rs[t := r]) == Min(MinOwes(rs[t := Idle]), MinOwed(r))
    ensures MaxOwes(rs[t := r]) == Max(MaxOwes(rs[t := Idle]), MaxOwed(r))
    ensures MinOwes(rs) <= WORD - 1 && MaxOwes(rs) >= 0
  {
    hide MinOwed, MaxOwed;
    var n := |rs| - 1;
    IdleOwes();
    if t < n {
      assert rs[t := r][..n] == rs[..n][t := r] && rs[t := Idle][..n] == rs[..n][t := Idle];
      ExtremesApart(rs[..n], t, r);
    } else {
      assert rs[t := r][..n] == rs[..n] && rs[t := Idle][..n] == rs[..n];
      ExtremesBounded(rs[..n]);
    }
  }

  lemma IdleOwes()
    ensures MinOwed(Idle) == WORD - 1 && MaxOwed(Idle) == 0
  {
  }

  lemma {:induction false} ExtremesBounded(rs: seq<Recorder>)
    ensures MinOwes(rs) <= WORD - 1 && MaxOwes(rs) >= 0
  {
    hide MinOwed, MaxOwed;
    if |rs| > 0 {
      ExtremesBounded(rs[..|rs| - 1]);
    }
  }

  // ---------- the invariant ----------

  /** Counters and debts add up to what the samples are due. */
  ghost predicate Balanced(s: State, w: Which)
    requires Shaped(s) && (w.OfBucket? ==> w.i < BUCKETS)
  {
    Held(s.counters, w) < WORD && Wrap(Held(s.counters, w) + Owes(s.recorders, w)) == Wrap(Due(s.samples, w))
  }

  /** A recorder tries to swap only what would be an improvement. */
  ghost predicate Sensible(r: Recorder) {
    (r.SwappingMin? ==> r.v < r.seen) && (r.SwappingMax? ==> r.v > r.seen)
  }

  ghost predicate Inv(s: State) {
    && Shaped(s) && (forall t :: 0 <= t < |s.recorders| ==> Sensible(s.recorders[t]))
    && (forall i: nat :: i < BUCKETS ==> Balanced(s, OfBucket(i)))
    && Balanced(s, OfCount) && Balanced(s, OfSum)
    && s.counters.minUs <= WORD - 1 && s.counters.maxUs >= 0
    && Min(s.counters.minUs, MinOwes(s.recorders)) == Smallest(s.samples)
    && Max(s.counters.maxUs, MaxOwes(s.recorders)) == Largest(s.samples)
  }

  /** A step pays what it owes, and a new recording owes what its sample is due. */
  lemma StepBalances(s: State, e: Event, w: Which)
    requires Shaped(s) && Enabled(s, e) && (w.OfBucket? ==> w.i < BUCKETS) && Balanced(s, w)
    ensures Shaped(Step(s, e)) && Balanced(Step(s, e), w)
  {
    hide BucketIndex, Owes, CountIn, Total, Wrap;
    var t, r := Step(s, e), s.recorders[e.t];
    OwesUpdate(s.recorders, e.t, t.recorders[e.t], w);
    OwesAtLeast(s.recorders, e.t, w);
    if r.Idle? {
      DueOneMore(s.samples, e.v, w);
      WrapSum(Held(s.counters, w) + Owes(s.recorders, w), Due(s.samples, w), Owed(Bucketing(e.v), w));
    } else {
      MovePays(s.counters, r, e, w);
      var paid := Owed(r, w) - Owed(t.recorders[e.t], w);
      WrapPaid(Held(s.counters, w), paid, Owes(s.recorders, w));
    }
  }

  lemma {:induction false} OwesAtLeast(rs: seq<Recorder>, t: nat, w: Which)
    requires t < |rs|
    ensures Owes(rs, w) >= Owed(rs[t], w)
  {
    hide Owed;
    if t < |rs| - 1 {
      OwesAtLeast(rs[..|rs| - 1], t, w);
    }
  }

  lemma DueOneMore(samples: seq<nat>, v: nat, w: Which)
    ensures Due(samples + [v], w) == Due(samples, w) + Owed(Bucketing(v), w)
  {
    hide BucketIndex;
    assert (samples + [v])[..|samples|] == samples;
  }

  /** Whatever a recorder stops owing is added to the counter in the same step. */
  lemma MovePays(c: Counters, r: Recorder, e: Event, w: Which)
    requires |c.buckets| == BUCKETS && (w.OfBucket? ==> w.i < BUCKETS) && !r.Idle? && Held(c, w) < WORD
    ensures var (c', r') := Move(c, r, e);
      && |c'.buckets| == BUCKETS && Owed(r', w) <= Owed(r, w)
      && Held(c', w) == Wrap(Held(c, w) + (Owed(r, w) - Owed(r', w)))
  {
    hide BucketIndex;
    WrapSmall(Held(c, w));
    hide Wrap;
    match r {
      case Bucketing(v) => IndexBounds(v);
      case Counting(_) =>
      case Summing(_) =>
      case LoadingMin(_) =>
      case SwappingMin(_, _) =>
      case LoadingMax(_) =>
      case SwappingMax(_, _) =>
    }
  }

  lemma WrapSmall(a: nat)
    ensures a < WORD ==> Wrap(a) == a
    ensures Wrap(a) < WORD
  {
  }

  lemma WrapSum(a: nat, b: nat, d: nat)
    requires Wrap(a) == Wrap(b)
    ensures Wrap(a + d) == Wrap(b + d)
  {
    hide Wrap;
    WrapTwice(a, d);
    WrapTwice(b, d);
  }

  lemma WrapPaid(held: nat, paid: nat, owes: nat)
    requires paid <= owes
    ensures Wrap(Wrap(held + paid) + (owes - paid)) == Wrap(held + owes) && Wrap(held + paid) < WORD
  {
    hide Wrap;
    WrapTwice(held + paid, owes - paid);
    WrapSmall(held + paid);
  }

  /** The smallest value, with those still to be compared, is that of the samples. */
  lemma StepKeepsSmallest(s: State, e: Event)
    requires Shaped(s) && Enabled(s, e) && Sensible(s.recorders[e.t])
    requires Min(s.counters.minUs, MinOwes(s.recorders)) == Smallest(s.samples)
    ensures Min(Step(s, e).counters.minUs, MinOwes(Step(s, e).recorders)) == Smallest(Step(s, e).samples)
  {
    hide BucketIndex, MinOwes, MaxOwes, Wrap;
    var t, r := Step(s, e), s.recorders[e.t];
    ExtremesApart(s.recorders, e.t, t.recorders[e.t]);
    ExtremesApart(s.recorders, e.t, r);
    assert s.recorders[e.t := r] == s.recorders;
    match r {
      case Idle => assert t.samples[..|s.samples|] == s.samples;
      case Bucketing(_) =>
      case Counting(_) =>
      case Summing(_) =>
      case LoadingMin(_) =>
      case SwappingMin(_, _) =>
      case LoadingMax(_) =>
      case SwappingMax(_, _) =>
    }
  }

  lemma StepKeepsLargest(s: State, e: Event)
    requires Shaped(s) && Enabled(s, e) && Sensible(s.recorders[e.t])
    requires Max(s.counters.maxUs, MaxOwes(s.recorders)) == Largest(s.samples)
    ensures Max(Step(s, e).counters.maxUs, MaxOwes(Step(s, e).recorders)) == Largest(Step(s, e).samples)
  {
    hide BucketIndex, MinOwes, MaxOwes, Wrap;
    var t, r := Step(s, e), s.recorders[e.t];
    ExtremesApart(s.recorders, e.t, t.recorders[e.t]);
    ExtremesApart(s.recorders, e.t, r);
    assert s.recorders[e.t := r] == s.recorders;
    match r {
      case Idle => assert t.samples[..|s.samples|] == s.samples;
      case Bucketing(_) =>
      case Counting(_) =>
      case Summing(_) =>
      case LoadingMin(_) =>
      case SwappingMin(_, _) =>
      case LoadingMax(_) =>
      case SwappingMax(_, _) =>
    }
  }

  lemma MoveIsSensible(c: Counters, r: Recorder, e: Event)
    requires |c.buckets| == BUCKETS
    ensures Sensible(Move(c, r, e).1)
    ensures Sensible(r) && c.minUs <= WORD - 1 ==> Move(c, r, e).0.minUs <= WORD - 1
    ensures c.maxUs >= 0 ==> Move(c, r, e).0.maxUs >= 0
  {
    hide BucketIndex, Wrap;
  }

  lemma StepKeepsInv(s: State, e: Event)
    requires Inv(s) && Enabled(s, e)
    ensures Inv(Step(s, e))
  {
    hide Balanced, Move, Smallest, Largest, MinOwes, MaxOwes, Sensible;
    MoveIsSensible(s.counters, s.recorders[e.t], e);
    StepKeepsSmallest(s, e);
    StepKeepsLargest(s, e);
    StepBalances(s, e, OfCount);
    StepBalances(s, e, OfSum);
    forall i: nat | i < BUCKETS ensures Balanced(Step(s, e), OfBucket(i)) {
      StepBalances(s, e, OfBucket(i));
    }
  }

  ghost predicate Follows(s: State, es: seq<Event>)
    decreases |es|
  {
    es == [] || (Shaped(s) && Enabled(s, es[0]) && Follows(Step(s, es[0]), es[1..]))
  }

  ghost function Run(s: State, es: seq<Event>): State
    requires Follows(s, es)
    decreases |es|
  {
    if es == [] then s else Run(Step(s, es[0]), es[1..])
  }

  lemma {:induction false} RunKeepsInv(s: State, es: seq<Event>)
    requires Inv(s) && Follows(s, es)
    ensures Inv(Run(s, es))
    decreases |es|
  {
    hide Inv, Step, Enabled;
    if es != [] {
      StepKeepsInv(s, es[0]);
      RunKeepsInv(Step(s, es[0]), es[1..]);
    }
  }

  lemma {:induction false} NobodyOwes(rs: seq<Recorder>, w: Which)
    requires forall t :: 0 <= t < |rs| ==> rs[t].Idle?
    ensures Owes(rs, w) == 0 && MinOwes(rs) == WORD - 1 && MaxOwes(rs) == 0
  {
    hide BucketIndex;
    if |rs| > 0 {
      NobodyOwes(rs[..|rs| - 1], w);
    }
  }

  lemma InitInv(threads: nat)
    ensures Inv(Init(threads))
  {
    hide BucketIndex;
    var s := Init(threads);
    NobodyOwes(s.recorders, OfCount);
    NobodyOwes(s.recorders, OfSum);
    forall i: nat | i < BUCKETS ensures Balanced(s, OfBucket(i)) {
      NobodyOwes(s.recorders, OfBucket(i));
    }
  }

  lemma {:induction false} SmallestFits(samples: seq<nat>)
    ensures Smallest(samples) <= WORD - 1
  {
    if |samples| > 0 {
      SmallestFits(samples[..|samples| - 1]);
    }
  }

  /** Concurrent recording loses nothing: once every recording is through, the counters are those of the samples. */
  lemma EverySampleIsCounted(threads: nat, es: seq<Event>)
    requires Follows(Init(threads), es)
    requires forall t :: 0 <= t < |Run(Init(threads), es).recorders| ==> Run(Init(threads), es).recorders[t].Idle?
    ensures var s := Run(Init(threads), es);
      && Shaped(s)
      && (forall i: nat :: i < BUCKETS ==> s.counters.buckets[i] == Wrap(CountIn(s.samples, i)))
      && s.counters.count == Wrap(|s.samples|) && s.counters.sumUs == Wrap(Total(s.samples))
      && s.counters.minUs == Smallest(s.samples) && s.counters.maxUs == Largest(s.samples)
  {
    hide BucketIndex, Step, Enabled, Wrap, CountIn, Total, Smallest, Largest, Owes, MinOwes, MaxOwes;
    InitInv(threads);
    RunKeepsInv(Init(threads), es);
    var s := Run(Init(threads), es);
    NobodyOwes(s.recorders, OfCount);
    NobodyOwes(s.recorders, OfSum);
    WrapSmall(s.counters.count);
    WrapSmall(s.counters.sumUs);
    forall i: nat | i < BUCKETS ensures s.counters.buckets[i] == Wrap(CountIn(s.samples, i)) {
      NobodyOwes(s.recorders, OfBucket(i));
      assert Balanced(s, OfBucket(i));
      WrapSmall(s.counters.buckets[i]);
    }
  }
}
