/**
 When trains leave: the departure window, the dispatch timer, and what both mean for the
 retention and debounce times that are configured per method.
 */
module TrainTiming {
  import opened Bytes
  import opened TrainModel
  import opened TrainInvariants
  import opened Wrappers

  // ---------------------------------------------------------------------------
  // The departure window
  // ---------------------------------------------------------------------------

  function Deadline(r: Rider): Time {
    r.arrival + r.timing.retention
  }

  /** `d` is the earliest retention deadline among the riders. */
  ghost predicate IsEarliest(riders: seq<Rider>, d: Time) {
    && (exists r :: r in riders && d == Deadline(r))
    && forall r :: r in riders ==> d <= Deadline(r)
  }

  ghost predicate DebounceWithinRetention(riders: seq<Rider>) {
    forall r :: r in riders ==> r.timing.debounce <= r.timing.retention
  }

  /** The minimal times of a train are lower bounds for those of its riders. */
  ghost predicate MinimalTimes(t: Train) {
    forall r :: r in t.riders ==> t.minDebounce <= r.timing.debounce && t.minRetention <= r.timing.retention
  }

  /** No train leaves sooner after its last passenger than its minimal debounce time. */
  ghost predicate LeavesDebounced(t: Train) {
    (t.riders != [] && DebounceWithinRetention(t.riders))
    ==> t.riders[|t.riders| - 1].arrival + t.minDebounce <= t.departure
  }

  /** The current train leaves at the earliest retention deadline on board. */
  ghost predicate CurrentWindow(t: Train) {
    && MinimalTimes(t)
    && LeavesDebounced(t)
    && (t.riders != [] ==> IsEarliest(t.riders, t.departure))
  }

  /** `t` was held back: it leaves the minimal debounce time after some finished write. */
  ghost predicate HeldBack(t: Train, completions: seq<Time>) {
    exists w :: w in completions && t.departure == w + t.minDebounce
  }

  /** A parked train leaves at its earliest deadline or, held back for debouncing, after it. */
  ghost predicate ParkedWindow(t: Train, completions: seq<Time>) {
    && MinimalTimes(t)
    && LeavesDebounced(t)
    && exists d :: IsEarliest(t.riders, d) && d <= t.departure && (d == t.departure || HeldBack(t, completions))
  }

  ghost predicate LastOf(lastDeparture: Option<Time>, completions: seq<Time>) {
    match lastDeparture
    case None => completions == []
    case Some(w) => completions != [] && w == completions[|completions| - 1]
  }

  ghost predicate YardWindow(y: Yard, completions: seq<Time>) {
    && CurrentWindow(y.train)
    && forall t :: t in y.dispatched ==> ParkedWindow(t, completions)
  }

  ghost predicate WindowOk(s: Endpoint) {
    && LastOf(s.lastDeparture, s.completions)
    && YardWindow(s.yard, s.completions)
    && forall l :: l in s.released ==> ParkedWindow(l.train, s.completions)
  }

  lemma BoardKeepsWindow(c: Config, t: Train, rider: Rider)
    requires WellFormed(c, t) && CurrentWindow(t) && !MustDepart(c, t, rider)
    ensures CurrentWindow(Board(t, rider))
  {
    PassengersIffRiders(c, t);
    var t' := Board(t, rider);
    assert rider == t'.riders[|t'.riders| - 1];
    assert forall r :: r in t'.riders <==> r == rider || r in t.riders;
    if t.riders != [] {
      var first :| first in t.riders && t.departure == Deadline(first);
      assert first in t'.riders;
    }
  }

  lemma ScheduledWindow(t: Train, lastDeparture: Option<Time>, completions: seq<Time>)
    requires CurrentWindow(t) && t.riders != [] && LastOf(lastDeparture, completions)
    ensures ParkedWindow(Scheduled(t, lastDeparture), completions)
  {
    var parked := Scheduled(t, lastDeparture);
    assert IsEarliest(parked.riders, t.departure);
    if parked.departure != t.departure {
      assert lastDeparture.value in completions;
      assert HeldBack(parked, completions);
    }
  }

  lemma LowerKeepsWindow(t: Train, timing: Timing)
    requires CurrentWindow(t)
    ensures CurrentWindow(Lower(t, timing))
  {
  }

  lemma ScheduleKeepsWindow(c: Config, y: Yard, lastDeparture: Option<Time>, completions: seq<Time>, successor: Train)
    requires ShapeOk(c, y) && YardWindow(y, completions) && y.train.riders != [] && LastOf(lastDeparture, completions)
    requires successor.riders == []
    ensures YardWindow(Schedule(y, lastDeparture, successor), completions)
  {
    ScheduledWindow(y.train, lastDeparture, completions);
    FileKeepsSorted(y.dispatched, Scheduled(y.train, lastDeparture));
  }

  lemma AdmitKeepsWindow(c: Config, y: Yard, lastDeparture: Option<Time>, completions: seq<Time>, rider: Rider)
    requires ShapeOk(c, y) && YardWindow(y, completions) && LastOf(lastDeparture, completions)
    ensures YardWindow(Admit(c, y, lastDeparture, rider), completions)
  {
    PassengersIffRiders(c, y.train);
    if MustDepart(c, y.train, rider) {
      ScheduleKeepsWindow(c, y, lastDeparture, completions, EmptyTrain(rider.arrival));
      BoardKeepsWindow(c, EmptyTrain(rider.arrival), rider);
    } else {
      BoardKeepsWindow(c, y.train, rider);
    }
  }

  lemma MakeRoomKeepsWindow(c: Config, y: Yard, lastDeparture: Option<Time>, completions: seq<Time>, now: Time, timing: Timing)
    requires ShapeOk(c, y) && YardWindow(y, completions) && LastOf(lastDeparture, completions)
    ensures YardWindow(MakeRoom(y, lastDeparture, now, timing), completions)
  {
    PassengersIffRiders(c, y.train);
    LowerKeepsWindow(y.train, timing);
    if y.train.passengers != {} {
      var lowered := y.(train := Lower(y.train, timing));
      assert ShapeOk(c, lowered);
      ScheduleKeepsWindow(c, lowered, lastDeparture, completions, EmptyTrain(now).(departure := now + timing.retention));
    }
  }

  lemma FlushKeepsWindow(c: Config, s: Endpoint, now: Time)
    requires ShapeOk(c, s.yard) && WindowOk(s)
    ensures WindowOk(FlushTrains(s, now))
  {
    PassengersIffRiders(c, s.yard.train);
    var s' := FlushTrains(s, now);
    assert forall l :: l in s'.released ==> l in s.released || l == s'.released[|s'.released| - 1];
    if !TakesParked(s.yard) && s.yard.train.riders != [] {
      assert ParkedWindow(s.yard.train, s.completions);
    }
  }

  lemma CompletionKeepsWindow(t: Train, completions: seq<Time>, now: Time)
    requires ParkedWindow(t, completions)
    ensures ParkedWindow(t, completions + [now])
  {
    if HeldBack(t, completions) {
      var w :| w in completions && t.departure == w + t.minDebounce;
      assert w in completions + [now];
    }
  }

  lemma SendKeepsWindow(c: Config, s: Endpoint, now: Time, data: Message, tp: Option<Segmentation>)
    requires ShapeOk(c, s.yard) && WindowOk(s)
    ensures WindowOk(Send(c, s, now, data, tp))
  {
    if FitsMessageSize(c, |data|) {
      AdmitKeepsWindow(c, s.yard, s.lastDeparture, s.completions, NewRider(c, s, now, data));
    } else if tp.Some? && tp.value.segments != [] {
      MakeRoomKeepsWindow(c, s.yard, s.lastDeparture, s.completions, now, c.timing(Identify(tp.value.segments[0])));
    }
  }

  lemma WriteDoneKeepsWindow(s: Endpoint, now: Time)
    requires WindowOk(s)
    ensures WindowOk(WriteCompletes(s, now))
  {
    forall t | t in s.yard.dispatched ensures ParkedWindow(t, s.completions + [now]) {
      CompletionKeepsWindow(t, s.completions, now);
    }
    forall l | l in s.released ensures ParkedWindow(l.train, s.completions + [now]) {
      CompletionKeepsWindow(l.train, s.completions, now);
    }
  }

  /** The departure window is kept by every step. */
  lemma StepKeepsWindow(c: Config, s: Endpoint, e: TimedEvent)
    requires ShapeOk(c, s.yard) && WindowOk(s)
    ensures WindowOk(Step(c, s, e))
  {
    var s0 := s.(clock := e.now);
    match e.event
    case Submit(data, tp) => SendKeepsWindow(c, s0, e.now, data, tp);
    case Flush => FlushKeepsWindow(c, s0, e.now);
    case TimerFires => FlushKeepsWindow(c, TimerOff(s0), e.now);
    case WriteDone => WriteDoneKeepsWindow(s0, e.now);
    case _ =>
      var s' := Step(c, s, e);
      assert s'.yard == s.yard && s'.completions == s.completions && s'.released == s.released;
  }

  // ---------------------------------------------------------------------------
  // No lost wake-up
  // ---------------------------------------------------------------------------

  ghost predicate WaitsIn(y: Yard, t: Train) {
    t.riders != [] && (t == y.train || t in y.dispatched)
  }

  /** The timer of a train that carries messages goes off by its departure, or at once if that has passed. */
  ghost predicate Awake(y: Yard, clock: Time) {
    forall t :: WaitsIn(y, t) ==> y.timer.Armed? && (y.timer.at <= t.departure || y.timer.at <= clock)
  }

  lemma StartTimerWakes(y: Yard, now: Time)
    requires Sorted(y.dispatched)
    ensures Awake(StartTimer(y, now), now)
  {
    forall t | WaitsIn(y, t) ensures NextDeparture(y) <= t.departure {
      if t in y.dispatched {
        var i :| 0 <= i < |y.dispatched| && t == y.dispatched[i];
      }
    }
  }

  lemma MakeRoomKeepsAwake(c: Config, y: Yard, lastDeparture: Option<Time>, now: Time, timing: Timing, clock: Time)
    requires ShapeOk(c, y) && Awake(y, clock)
    ensures Awake(MakeRoom(y, lastDeparture, now, timing), clock)
  {
    PassengersIffRiders(c, y.train);
    assert y.train.riders != [] ==> WaitsIn(y, y.train);
    var lowered := Lower(y.train, timing);
    if y.train.passengers != {} {
      FileKeepsSorted(y.dispatched, Scheduled(lowered, lastDeparture));
      forall t | WaitsIn(MakeRoom(y, lastDeparture, now, timing), t)
        ensures y.timer.Armed? && (y.timer.at <= t.departure || y.timer.at <= clock)
      {
        if t in y.dispatched {
          assert WaitsIn(y, t);
        }
      }
    } else {
      forall t | t in y.dispatched && t.riders != [] ensures WaitsIn(y, t) {}
    }
  }

  lemma FlushKeepsAwake(c: Config, y: Yard, now: Time)
    requires ShapeOk(c, y)
    ensures Awake(FlushYard(y, now).yard, now)
  {
    PassengersIffRiders(c, y.train);
    if TakesParked(y) {
      StartTimerWakes(y.(dispatched := y.dispatched[1..]), now);
    } else {
      StartTimerWakes(if Loaded(y.train).Some? then y.(train := EmptyTrain(now)) else y, now);
    }
  }

  lemma AdmitWakes(c: Config, y: Yard, lastDeparture: Option<Time>, rider: Rider)
    requires Sane(c) && ShapeOk(c, y) && FitsMessageSize(c, |rider.data|)
    ensures Awake(Admit(c, y, lastDeparture, rider), rider.arrival)
  {
    AdmitKeepsShape(c, y, lastDeparture, rider);
    var y' := Admit(c, y, lastDeparture, rider);
    StartTimerWakes(y', rider.arrival);
    assert StartTimer(y', rider.arrival) == y';
  }

  lemma StepKeepsAwake(c: Config, s: Endpoint, e: TimedEvent)
    requires Sane(c) && ShapeOk(c, s.yard) && Awake(s.yard, s.clock) && Enabled(s, e)
    ensures Awake(Step(c, s, e).yard, e.now)
  {
    YardStep(c, s, e);
    assert Awake(s.yard, e.now);
    match e.event
    case Submit(data, tp) =>
      if FitsMessageSize(c, |data|) {
        AdmitWakes(c, s.yard, s.lastDeparture, NewRider(c, s, e.now, data));
      }
      if tp.Some? && tp.value.segments != [] {
        MakeRoomKeepsAwake(c, s.yard, s.lastDeparture, e.now, c.timing(Identify(tp.value.segments[0])), e.now);
      }
    case Flush => FlushKeepsAwake(c, s.yard, e.now);
    case TimerFires => FlushKeepsAwake(c, s.yard.(timer := Idle), e.now);
    case _ =>
  }

  /**
   No lost wake-up, and what it means for retention, in every reachable state of every run:
   the timer goes off no later than the departure of any train that carries messages, hence
   for the current train no later than the retention deadline of each rider; and the window
   holds for current, parked and released trains.
   */
  lemma {:induction false} RunsWakeUp(c: Config, start: Time, es: seq<TimedEvent>)
    requires Sane(c) && Legal(c, Init(start), es)
    ensures var s := Run(c, Init(start), es);
            && Awake(s.yard, s.clock)
            && WindowOk(s)
            && forall r :: r in s.yard.train.riders ==>
                 s.yard.timer.Armed? && s.yard.timer.at <= Max(Deadline(r), s.clock)
  {
    var s := Run(c, Init(start), es);
    if es != [] {
      var s0, e := Run(c, Init(start), es[..|es| - 1]), es[|es| - 1];
      RunsWakeUp(c, start, es[..|es| - 1]);
      RunsConserve(c, start, es[..|es| - 1]);
      StepKeepsAwake(c, s0, e);
      StepKeepsWindow(c, s0, e);
    }
    assert s.yard.train.riders != [] ==> WaitsIn(s.yard, s.yard.train);
  }

  // ---------------------------------------------------------------------------
  // Progress of flush
  // ---------------------------------------------------------------------------

  /** The current train is empty and yet due before every parked train. */
  predicate Stuck(y: Yard) {
    y.train.riders == [] && y.dispatched != [] && y.train.departure < y.dispatched[0].departure
  }

  /** `flush` takes the train that leaves first; a parked one goes first on a tie. */
  lemma FlushTakesEarliest(c: Config, y: Yard, now: Time)
    requires ShapeOk(c, y)
    ensures var f := FlushYard(y, now);
            f.train.Some? ==>
              && WaitsIn(y, f.train.value)
              && (forall t :: WaitsIn(y, t) ==> f.train.value.departure <= t.departure)
              && (f.train.value.departure < y.train.departure || f.train.value == y.train
                  || (f.train.value.departure == y.train.departure && f.train.value in y.dispatched))
  {
    CargoEmpty(y.train.riders);
    forall t | t in y.dispatched ensures y.dispatched[0].departure <= t.departure {
      var i :| 0 <= i < |y.dispatched| && t == y.dispatched[i];
    }
  }

  /** `flush` releases a train exactly if some train carries messages and the yard is not stuck. */
  lemma FlushReleasesIff(c: Config, y: Yard, now: Time)
    requires ShapeOk(c, y)
    ensures FlushYard(y, now).train.Some? <==> Waiting(y) != [] && !Stuck(y)
    ensures FlushYard(y, now).train.Some? ==> |Waiting(FlushYard(y, now).yard)| < |Waiting(y)|
  {
    CargoEmpty(y.train.riders);
    if y.dispatched != [] {
      CargoEmpty(y.dispatched[0].riders);
      assert y.dispatched[0] in y.dispatched;
    }
    if TakesParked(y) {
      FlushParked(y, now);
    } else {
      FlushCurrent(y, now);
    }
  }

  /** Once stuck, flushing changes nothing but the timer, which goes off again at once when due. */
  lemma StuckStaysStuck(y: Yard, now: Time)
    requires Stuck(y)
    ensures FlushYard(y, now) == Flushed(y.(timer := Armed(Max(now, y.train.departure))), None)
    ensures Stuck(FlushYard(y, now).yard)
  {
  }

  ghost predicate Unsegmented(es: seq<TimedEvent>) {
    forall e :: e in es && e.event.Submit? ==> e.event.tp.None?
  }

  /** No configured time exceeds the default lifetime of an empty train. */
  ghost predicate Moderate(c: Config) {
    forall id :: Carriable(id) ==>
      c.timing(id).debounce <= 21_600_000_000_000 && c.timing(id).retention <= 21_600_000_000_000
  }

  /** Bounds that keep the yard from getting stuck. */
  ghost predicate Bounded(c: Config, y: Yard, clock: Time) {
    && (forall r :: r in y.train.riders ==> r.timing == c.timing(Identify(r.data)))
    && MinimalTimes(y.train)
    && (forall t :: t in y.dispatched ==> t.departure <= clock + SIX_HOURS)
    && (y.train.riders != [] ==> y.train.departure <= clock + SIX_HOURS)
    && (y.train.riders == [] ==> forall t :: t in y.dispatched ==> t.departure <= y.train.departure)
  }

  ghost predicate InThePast(lastDeparture: Option<Time>, clock: Time) {
    lastDeparture.Some? ==> lastDeparture.value <= clock
  }

  lemma AdmitKeepsBounded(c: Config, y: Yard, lastDeparture: Option<Time>, rider: Rider)
    requires Sane(c) && Moderate(c) && ShapeOk(c, y)
    requires Bounded(c, y, rider.arrival) && InThePast(lastDeparture, rider.arrival)
    requires rider.timing == c.timing(Identify(rider.data))
    ensures Bounded(c, Admit(c, y, lastDeparture, rider), rider.arrival)
  {
    PassengersIffRiders(c, y.train);
    if MustDepart(c, y.train, rider) {
      var parked := Scheduled(y.train, lastDeparture);
      FileKeepsSorted(y.dispatched, parked);
      assert y.train.riders[0] in y.train.riders;
      assert parked.departure <= rider.arrival + SIX_HOURS;
    } else {
      var t' := Board(y.train, rider);
      assert forall r :: r in t'.riders <==> r == rider || r in y.train.riders;
    }
  }

  lemma FlushKeepsBounded(c: Config, y: Yard, now: Time)
    requires ShapeOk(c, y) && Bounded(c, y, now)
    ensures Bounded(c, FlushYard(y, now).yard, now)
  {
    PassengersIffRiders(c, y.train);
  }

  ghost predicate KeptBounded(c: Config, s: Endpoint) {
    Bounded(c, s.yard, s.clock) && InThePast(s.lastDeparture, s.clock)
  }

  lemma StepKeepsBounded(c: Config, s: Endpoint, e: TimedEvent)
    requires Sane(c) && Moderate(c) && ShapeOk(c, s.yard) && Enabled(s, e)
    requires KeptBounded(c, s) && (e.event.Submit? ==> e.event.tp.None?)
    ensures KeptBounded(c, Step(c, s, e))
  {
    YardStep(c, s, e);
    match e.event
    case Submit(data, tp) => AdmitKeepsBounded(c, s.yard, s.lastDeparture, NewRider(c, s, e.now, data));
    case Flush => FlushKeepsBounded(c, s.yard, e.now);
    case TimerFires => FlushKeepsBounded(c, s.yard.(timer := Idle), e.now);
    case _ =>
  }

  lemma BoundedNeverStuck(c: Config, y: Yard, clock: Time)
    requires Bounded(c, y, clock)
    ensures !Stuck(y)
  {
    if y.dispatched != [] {
      assert y.dispatched[0] in y.dispatched;
    }
  }

  lemma {:induction false} RunsBounded(c: Config, start: Time, es: seq<TimedEvent>)
    requires Sane(c) && Moderate(c) && Legal(c, Init(start), es) && Unsegmented(es)
    ensures KeptBounded(c, Run(c, Init(start), es))
  {
    if es != [] {
      RunsBounded(c, start, es[..|es| - 1]);
      RunsConserve(c, start, es[..|es| - 1]);
      StepKeepsBounded(c, Run(c, Init(start), es[..|es| - 1]), es[|es| - 1]);
    }
  }

  /** Without segmentation and with moderate times, no reachable state is stuck: every flush releases a train if any waits. */
  lemma RunsNeverStuck(c: Config, start: Time, es: seq<TimedEvent>, now: Time)
    requires Sane(c) && Moderate(c) && Legal(c, Init(start), es) && Unsegmented(es)
    ensures var y := Run(c, Init(start), es).yard;
            && !Stuck(y)
            && (FlushYard(y, now).train.Some? <==> Waiting(y) != [])
  {
    var s := Run(c, Init(start), es);
    RunsConserve(c, start, es);
    RunsBounded(c, start, es);
    BoundedNeverStuck(c, s.yard, s.clock);
    FlushReleasesIff(c, s.yard, now);
  }

  // ---------------------------------------------------------------------------
  // Punctual runs
  // ---------------------------------------------------------------------------

  /** The train that the next flush releases, whenever that is. */
  function Upcoming(y: Yard): Option<Train> {
    if TakesParked(y) then Loaded(y.dispatched[0]) else Loaded(y.train)
  }

  /** Neither now nor later does the timer release a train before its departure. */
  ghost predicate NotEarly(y: Yard, clock: Time) {
    y.timer.Armed? && Upcoming(y).Some? ==> Upcoming(y).value.departure <= Max(y.timer.at, clock)
  }

  lemma StartTimerNotEarly(c: Config, s: Endpoint, now: Time, data: Message)
    ensures NotEarly(Admit(c, s.yard, s.lastDeparture, NewRider(c, s, now, data)), now)
  {
  }

  lemma FlushNotEarly(y: Yard, now: Time)
    requires NotEarly(y, now)
    ensures NotEarly(FlushYard(y, now).yard, now)
  {
    CargoEmpty(y.train.riders);
  }

  /** The first of the parked trains once the current one has been sent off before a segmented message. */
  function FirstParked(y: Yard, lastDeparture: Option<Time>, timing: Timing): Time {
    var postponed := ScheduledDeparture(Lower(y.train, timing), lastDeparture);
    if y.dispatched == [] then postponed else Min(y.dispatched[0].departure, postponed)
  }

  lemma MakeRoomParks(y: Yard, lastDeparture: Option<Time>, now: Time, timing: Timing)
    requires y.train.passengers != {}
    ensures var y' := MakeRoom(y, lastDeparture, now, timing);
            && y'.timer == y.timer && y'.train.riders == [] && y'.train.departure == now + timing.retention
            && y'.dispatched != [] && y'.dispatched[0].departure == FirstParked(y, lastDeparture, timing)
  {
  }

  /**
   Sending passengers off before a segmented message makes the timer release a train early, if and only
   if some parked train then leaves after the timer but within the retention time of the segments.
   */
  lemma MakeRoomNotEarlyIff(c: Config, y: Yard, lastDeparture: Option<Time>, now: Time, timing: Timing)
    requires ShapeOk(c, y) && y.train.passengers != {} && y.timer.Armed?
    ensures NotEarly(MakeRoom(y, lastDeparture, now, timing), now)
            <==> !(Max(y.timer.at, now) < FirstParked(y, lastDeparture, timing) <= now + timing.retention)
  {
    var y' := MakeRoom(y, lastDeparture, now, timing);
    MakeRoomParks(y, lastDeparture, now, timing);
    MakeRoomKeepsShape(c, y, lastDeparture, now, timing);
    assert y'.dispatched[0] in y'.dispatched;
    CargoEmpty(y'.dispatched[0].riders);
  }

  /** No message is too large, or none fits into a train, or no method has both a debounce and a retention time. */
  ghost predicate SegmentsHarmless(c: Config) {
    || c.maxMessageSize == UINT32_MAX
    || c.maxMessageSize < 4
    || forall id :: Carriable(id) ==> c.timing(id).debounce == 0 || c.timing(id).retention == 0
  }

  lemma HarmlessMakeRoom(c: Config, s: Endpoint, now: Time, timing: Timing)
    requires ShapeOk(c, s.yard) && NotEarly(s.yard, now) && InThePast(s.lastDeparture, now)
    requires timing.debounce == 0 || timing.retention == 0 || s.yard.train.passengers == {}
    ensures NotEarly(MakeRoom(s.yard, s.lastDeparture, now, timing), now)
  {
    var y := s.yard;
    PassengersIffRiders(c, y.train);
    if y.train.passengers != {} && y.timer.Armed? {
      assert y.dispatched != [] ==> y.dispatched[0] in y.dispatched;
      CargoEmpty(y.train.riders);
      if y.dispatched != [] {
        CargoEmpty(y.dispatched[0].riders);
      }
      MakeRoomNotEarlyIff(c, y, s.lastDeparture, now, timing);
    }
  }

  lemma HarmlessSegments(c: Config, s: Endpoint, e: TimedEvent)
    requires SegmentsHarmless(c) && c.maxMessageSize != UINT32_MAX && ShapeOk(c, s.yard)
    requires NotEarly(s.yard, e.now) && InThePast(s.lastDeparture, e.now)
    requires e.event.Submit? && e.event.tp.Some? && e.event.tp.value.segments != []
    ensures NotEarly(MakeRoom(s.yard, s.lastDeparture, e.now, c.timing(Identify(e.event.tp.value.segments[0]))), e.now)
  {
    var id := Identify(e.event.tp.value.segments[0]);
    assert Carriable(id);
    if c.maxMessageSize < 4 {
      NothingFits(c, s.yard.train);
    }
    HarmlessMakeRoom(c, s, e.now, c.timing(id));
  }

  lemma NothingFits(c: Config, t: Train)
    requires WellFormed(c, t) && c.maxMessageSize < 4
    ensures t.passengers == {}
  {
  }

  ghost predicate KeptNotEarly(s: Endpoint) {
    NotEarly(s.yard, s.clock) && InThePast(s.lastDeparture, s.clock)
  }

  lemma StepKeepsNotEarly(c: Config, s: Endpoint, e: TimedEvent)
    requires ShapeOk(c, s.yard) && KeptNotEarly(s) && Enabled(s, e)
    requires (e.event.Submit? ==> e.event.tp.None?) || SegmentsHarmless(c)
    ensures KeptNotEarly(Step(c, s, e))
  {
    YardStep(c, s, e);
    match e.event
    case Submit(data, tp) =>
      StartTimerNotEarly(c, s, e.now, data);
      if tp.Some? && tp.value.segments != [] && !FitsMessageSize(c, |data|) {
        HarmlessSegments(c, s, e);
      }
    case Flush => FlushNotEarly(s.yard, e.now);
    case TimerFires => FlushNotEarly(s.yard.(timer := Idle), e.now);
    case _ =>
  }

  lemma {:induction false} RunsKeepNotEarly(c: Config, start: Time, es: seq<TimedEvent>)
    requires Sane(c) && Legal(c, Init(start), es) && (Unsegmented(es) || SegmentsHarmless(c))
    ensures KeptNotEarly(Run(c, Init(start), es))
    decreases |es|
  {
    if es != [] {
      var before, e := es[..|es| - 1], es[|es| - 1];
      assert Unsegmented(es) ==> Unsegmented(before);
      RunsKeepNotEarly(c, start, before);
      RunsConserve(c, start, before);
      StepKeepsNotEarly(c, Run(c, Init(start), before), e);
    }
  }

  /**
   A timer that fires releases only a train whose departure time has come: on all runs without segmented
   messages, and on all runs of a configuration in which these are harmless.
   */
  lemma RunsReleaseInTime(c: Config, start: Time, es: seq<TimedEvent>, now: Time)
    requires Sane(c) && Legal(c, Init(start), es) && (Unsegmented(es) || SegmentsHarmless(c))
    ensures var s := Run(c, Init(start), es);
            && NotEarly(s.yard, s.clock)
            && (Enabled(s, At(now, TimerFires)) && FlushYard(s.yard.(timer := Idle), now).train.Some?
                ==> FlushYard(s.yard.(timer := Idle), now).train.value.departure <= now)
  {
    RunsKeepNotEarly(c, start, es);
  }

  /** Time does not pass an armed timer, and only the timer flushes. */
  ghost predicate Prompt(s: Endpoint, e: TimedEvent) {
    && !e.event.Flush?
    && (s.yard.timer.Armed? ==> e.now <= s.yard.timer.at)
  }

  ghost predicate PromptRun(c: Config, s: Endpoint, es: seq<TimedEvent>) {
    es == [] || (PromptRun(c, s, es[..|es| - 1]) && Prompt(Run(c, s, es[..|es| - 1]), es[|es| - 1]))
  }

  /** No train with messages is overdue. */
  ghost predicate OnTime(y: Yard, clock: Time) {
    forall t :: WaitsIn(y, t) ==> clock <= t.departure
  }

  lemma AdmitKeepsOnTime(c: Config, y: Yard, lastDeparture: Option<Time>, rider: Rider)
    requires ShapeOk(c, y) && OnTime(y, rider.arrival) && 0 <= rider.timing.retention
    ensures OnTime(Admit(c, y, lastDeparture, rider), rider.arrival)
  {
    PassengersIffRiders(c, y.train);
    assert y.train.riders != [] ==> WaitsIn(y, y.train);
    forall t | t in y.dispatched ensures t.riders != [] ==> rider.arrival <= t.departure {
      assert t.riders != [] ==> WaitsIn(y, t);
    }
    if MustDepart(c, y.train, rider) {
      FileKeepsSorted(y.dispatched, Scheduled(y.train, lastDeparture));
    }
  }

  lemma MakeRoomKeepsOnTime(c: Config, y: Yard, lastDeparture: Option<Time>, now: Time, timing: Timing)
    requires ShapeOk(c, y) && OnTime(y, now)
    ensures OnTime(MakeRoom(y, lastDeparture, now, timing), now)
  {
    PassengersIffRiders(c, y.train);
    assert y.train.riders != [] ==> WaitsIn(y, y.train);
    forall t | t in y.dispatched ensures t.riders != [] ==> now <= t.departure {
      assert t.riders != [] ==> WaitsIn(y, t);
    }
    FileMembers(y.dispatched, Scheduled(Lower(y.train, timing), lastDeparture));
  }

  lemma FlushKeepsOnTime(c: Config, y: Yard, now: Time)
    requires ShapeOk(c, y) && OnTime(y, now)
    ensures OnTime(FlushYard(y, now).yard, now)
    ensures forall t :: FlushYard(y, now).train == Some(t) ==> now <= t.departure
  {
    CargoEmpty(y.train.riders);
    forall t | WaitsIn(FlushYard(y, now).yard, t) ensures WaitsIn(y, t) {}
    assert y.train.riders != [] ==> WaitsIn(y, y.train);
    if y.dispatched != [] {
      assert WaitsIn(y, y.dispatched[0]);
    }
  }

  lemma TimePasses(s: Endpoint, e: TimedEvent)
    requires Awake(s.yard, s.clock) && OnTime(s.yard, s.clock) && Enabled(s, e) && Prompt(s, e)
    ensures OnTime(s.yard, e.now)
  {
  }

  lemma StepKeepsOnTime(c: Config, s: Endpoint, e: TimedEvent)
    requires Sane(c) && ShapeOk(c, s.yard) && Awake(s.yard, s.clock) && OnTime(s.yard, s.clock)
    requires Enabled(s, e) && Prompt(s, e)
    ensures OnTime(Step(c, s, e).yard, e.now)
  {
    YardStep(c, s, e);
    TimePasses(s, e);
    match e.event
    case Submit(data, tp) =>
      AdmitKeepsOnTime(c, s.yard, s.lastDeparture, NewRider(c, s, e.now, data));
      if tp.Some? && tp.value.segments != [] {
        MakeRoomKeepsOnTime(c, s.yard, s.lastDeparture, e.now, c.timing(Identify(tp.value.segments[0])));
      }
    case TimerFires =>
      var y := s.yard.(timer := Idle);
      assert forall t :: WaitsIn(y, t) <==> WaitsIn(s.yard, t);
      FlushKeepsOnTime(c, y, e.now);
    case _ =>
  }

  /** What a step adds to the releases. */
  lemma StepReleases(c: Config, s: Endpoint, e: TimedEvent)
    ensures var s' := Step(c, s, e);
            || s'.released == s.released
            || (e.event.Flush? && FlushYard(s.yard, e.now).train.Some?
                && s'.released == s.released + [Release(FlushYard(s.yard, e.now).train.value, e.now)])
            || (e.event.TimerFires? && FlushYard(s.yard.(timer := Idle), e.now).train.Some?
                && s'.released == s.released + [Release(FlushYard(s.yard.(timer := Idle), e.now).train.value, e.now)])
  {
  }

  /** Releases that are not late; and, where they are not early either, on the spot. */
  ghost predicate Punctual(released: seq<Release>, exactly: bool) {
    forall l :: l in released ==> l.at <= l.train.departure && (exactly ==> l.at == l.train.departure)
  }

  lemma TimerReleasesPunctually(c: Config, s: Endpoint, now: Time)
    requires ShapeOk(c, s.yard) && OnTime(s.yard, now) && s.yard.timer == Armed(now) && s.clock <= now
    ensures forall t :: FlushYard(s.yard.(timer := Idle), now).train == Some(t) ==> now <= t.departure
    ensures NotEarly(s.yard, s.clock)
            ==> forall t :: FlushYard(s.yard.(timer := Idle), now).train == Some(t) ==> t.departure == now
  {
    var y := s.yard.(timer := Idle);
    assert forall t :: WaitsIn(y, t) <==> WaitsIn(s.yard, t);
    FlushKeepsOnTime(c, y, now);
  }

  lemma {:induction false} PromptRunsStayOnTime(c: Config, start: Time, es: seq<TimedEvent>)
    requires Sane(c) && Legal(c, Init(start), es) && PromptRun(c, Init(start), es)
    ensures var s := Run(c, Init(start), es);
            OnTime(s.yard, s.clock) && Punctual(s.released, Unsegmented(es) || SegmentsHarmless(c))
  {
    if es != [] {
      var before, e := es[..|es| - 1], es[|es| - 1];
      var s0 := Run(c, Init(start), before);
      PromptRunsStayOnTime(c, start, before);
      RunsConserve(c, start, before);
      RunsWakeUp(c, start, before);
      YardStep(c, s0, e);
      StepKeepsOnTime(c, s0, e);
      StepReleases(c, s0, e);
      if e.event.TimerFires? {
        TimePasses(s0, e);
        TimerReleasesPunctually(c, s0, e.now);
        if Unsegmented(es) || SegmentsHarmless(c) {
          RunsReleaseInTime(c, start, before, e.now);
        }
      }
    }
  }

  /**
   On prompt runs, segmented or not, no train enters the queue after its departure time. So no message
   stays longer than its retention time, unless its train was held back for debouncing: then it
   leaves no later than the minimal debounce time after a finished write. Without segmented messages, or
   where these are harmless, every train enters the queue exactly at its departure time.
   */
  lemma PromptRunsArePunctual(c: Config, start: Time, es: seq<TimedEvent>)
    requires Sane(c) && Legal(c, Init(start), es) && PromptRun(c, Init(start), es)
    ensures var s := Run(c, Init(start), es);
            && (forall l :: l in s.released ==> l.at <= l.train.departure)
            && (Unsegmented(es) || SegmentsHarmless(c) ==> forall l :: l in s.released ==> l.at == l.train.departure)
            && (forall l, r :: l in s.released && r in l.train.riders ==>
                  l.at <= Deadline(r) || HeldBack(l.train, s.completions))
            && (forall r :: r in s.yard.train.riders ==> s.clock <= Deadline(r))
  {
    PromptRunsStayOnTime(c, start, es);
    RunsWakeUp(c, start, es);
    var s := Run(c, Init(start), es);
    forall l, r | l in s.released && r in l.train.riders
      ensures l.at <= Deadline(r) || HeldBack(l.train, s.completions)
    {
      assert ParkedWindow(l.train, s.completions);
    }
    assert s.yard.train.riders != [] ==> WaitsIn(s.yard, s.yard.train);
  }
}
