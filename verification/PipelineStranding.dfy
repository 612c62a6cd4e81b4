/**
  The one frame that can be left in the ingress, in every configuration: a stop request overtakes
  the first push between its look at the closed flag and its insertion, and the stages leave.
 */
module PipelineStranding {
  import opened Common
  import opened HandOff
  import opened Pipeline
  import opened PipelineFrames
  import opened PipelineAccounting
  import opened PipelineSchedules

  const EMPTY := Queue([], false)
  const CLOSED := Queue([], true)

  /** The first frame to be acquired. */
  function First(c: Config): Frame
    requires c.Valid()
  {
    FramesPositive(c);
    Frame(Ids(c.Frames())[c.Frames() - 1], 0)
  }

  function Rest(c: Config): seq<nat>
    requires c.Valid()
  {
    FramesPositive(c);
    Ids(c.Frames())[..c.Frames() - 1]
  }

  /** Capture has looked at the closed flag and is about to insert; nothing else has happened. */
  function AboutToInsert(c: Config): State
    requires c.Valid()
  {
    State(Rest(c), [EMPTY, EMPTY, EMPTY, EMPTY], Pushing(Inserting(First(c))), [Pop, Pop, Pop, Pop],
          Signals(false, false, false, false), Tally(0, 0, 0, 1), History([], false, false, [], None))
  }

  /** A stop has been requested, and its callback has closed the ingress behind capture's back. */
  function Overtaken(c: Config): State
    requires c.Valid()
  {
    State(Rest(c), [CLOSED, EMPTY, EMPTY, EMPTY], Pushing(Inserting(First(c))), [Pop, Pop, Pop, Pop],
          Signals(true, false, false, false), Tally(0, 0, 0, 1), History([], false, true, [], None))
  }

  const ALL_GONE := [Stage.Exited, Stage.Exited, Stage.Exited, Stage.Exited]

  const ALL_CLOSED := [CLOSED, CLOSED, CLOSED, CLOSED]

  /** All stages have found their input closed and empty, and left. */
  function StagesGone(c: Config): State
    requires c.Valid()
  {
    Overtaken(c).(queues := ALL_CLOSED, stages := ALL_GONE)
  }

  /** Capture has inserted its frame, counted it, and left too. */
  function Stranded(c: Config): State
    requires c.Valid()
  {
    State(Rest(c), [Queue([First(c)], true), CLOSED, CLOSED, CLOSED], Capture.Exited, ALL_GONE,
          Signals(true, false, false, false), Tally(1, 0, 0, 1), History([], false, true, [0], Some(0)))
  }

  lemma StartMayRead(c: Config)
    requires c.Valid()
    ensures Follows(c, Init(c), []) && End(c, []) == Init(c) && MayRead(c, Init(c))
    ensures Init(c).free == Ids(c.Frames()) && Held(Init(c)) == First(c)
  {
    hide Config.Frames, Config.Capacity;
    FramesPositive(c);
  }

  lemma ReadsAndLooks(c: Config) returns (es: seq<Event>)
    requires c.Valid()
    ensures Follows(c, Init(c), es) && End(c, es) == AboutToInsert(c)
  {
    hide Follows, Run, Config.Frames, Config.Capacity, MayRead;
    StartMayRead(c);
    es := CaptureReads(c, []);
    es := CaptureGoesOn(c, es, Returns);
    if c.policy.Latest? {
      es := CaptureGoesOn(c, es, Returns);
    }
  }

  lemma StopOvertakes(c: Config, es: seq<Event>) returns (more: seq<Event>)
    requires c.Valid() && Follows(c, Init(c), es) && End(c, es) == AboutToInsert(c)
    ensures Follows(c, Init(c), more) && End(c, more) == Overtaken(c)
  {
    hide Follows, Run, Init, Config.Frames, Config.Capacity;
    OneStepMore(c, Init(c), es, RequestStop);
    OneStepMore(c, Init(c), es + [RequestStop], RunCallback);
    more := es + [RequestStop] + [RunCallback];
  }

  /** The ingress is closed, all else is empty, and no stage has moved. */
  ghost predicate NothingForStages(s: State) {
    s.queues == [CLOSED, EMPTY, EMPTY, EMPTY] && s.stages == [Pop, Pop, Pop, Pop]
  }

  /** Then the stages leave one after the other. */
  lemma StagesLeave(c: Config, es: seq<Event>) returns (more: seq<Event>)
    requires c.Valid() && Follows(c, Init(c), es) && NothingForStages(End(c, es))
    ensures Follows(c, Init(c), more)
    ensures End(c, more) == End(c, es).(queues := ALL_CLOSED, stages := ALL_GONE)
  {
    hide Follows, Run, Init, Config.Frames, Config.Capacity;
    more := StageGoesOn(c, es, 0);
    more := StageGoesOn(c, more, 0);
    more := StageGoesOn(c, more, 1);
    more := StageGoesOn(c, more, 1);
    more := StageGoesOn(c, more, 2);
    more := StageGoesOn(c, more, 2);
    more := StageGoesOn(c, more, 3);
    more := StageGoesOn(c, more, 3);
    assert End(c, more).queues == ALL_CLOSED && End(c, more).stages == ALL_GONE;
  }

  /** Past its check, a push inserts into a closed hand-off as into an open one. */
  lemma InsertsIntoClosed(c: Config)
    requires c.Valid()
    ensures PushStep(c.policy, c.Capacity(0), CLOSED, Inserting(First(c)))
      == (Queue([First(c)], true), Returned(Accepted))
    ensures CanPush(c.policy, c.Capacity(0), CLOSED, Inserting(First(c)))
  {
    hide Config.Frames, Config.Capacity;
    CapacityPositive(c);
    assert [] + [First(c)] == [First(c)];
    if c.policy.Latest? {} else if c.policy.Block? {} else {}
  }

  lemma CaptureStrands(c: Config, es: seq<Event>) returns (more: seq<Event>)
    requires c.Valid() && Follows(c, Init(c), es) && End(c, es) == StagesGone(c)
    ensures Follows(c, Init(c), more) && End(c, more) == Stranded(c)
  {
    hide Follows, Run, Init, Config.Frames, Config.Capacity;
    InsertsIntoClosed(c);
    more := CaptureGoesOn(c, es, Returns);
    assert End(c, more).queues == Stranded(c).queues && End(c, more).capture == Pushing(Returned(Accepted));
    more := CaptureGoesOn(c, more, Returns);
    more := CaptureGoesOn(c, more, Returns);
    more := CaptureGoesOn(c, more, Returns);
    more := CaptureGoesOn(c, more, Returns);
  }

  /** In every configuration the bound of one stranded frame is reached: here is the run. */
  lemma OneFrameCanBeStranded(c: Config) returns (es: seq<Event>)
    requires c.Valid()
    ensures Finished(c, es) && End(c, es) == Stranded(c)
    ensures var s := End(c, es);
      s.tally.captured == 1 && s.tally.completed == 0 == s.tally.dropped && |s.queues[0].items| == 1
  {
    hide Follows, Run, Init, Config.Frames, Config.Capacity;
    es := ReadsAndLooks(c);
    es := StopOvertakes(c, es);
    es := StagesLeave(c, es);
    es := CaptureStrands(c, es);
  }

  /**
    In every configuration a failure-free run can end with a captured frame in the ingress if and
    only if stop requests are allowed.
   */
  lemma StrandedExactlyIfStopsAllowed(c: Config, stopsAllowed: bool)
    requires c.Valid()
    ensures
      (exists es :: Finished(c, es) && (stopsAllowed || NoStops(es)) && End(c, es).queues[0].items != [])
      <==> stopsAllowed
  {
    hide Follows, Run, Init, Config.Frames, Config.Capacity, NoStops, Sound;
    if stopsAllowed {
      var es := OneFrameCanBeStranded(c);
    } else {
      forall es | Finished(c, es) && NoStops(es) ensures End(c, es).queues[0].items == [] {
        InitSound(c);
        NothingStopped(c);
        NoStopsNoFlag(c, Init(c), es);
        CapturedFramesAreAccountedFor(c, es);
      }
    }
  }

  lemma NothingStopped(c: Config)
    requires c.Valid()
    ensures Shaped(Init(c)) && !Init(c).signals.stop
  {
    hide Config.Frames;
  }
}
