/**
 When flushing makes no progress: an empty current train that is due before every parked train.
 */
module TrainBlocking {
  import opened Bytes
  import opened TrainModel
  import opened TrainInvariants
  import opened TrainTiming
  import opened TrainOrder
  import opened Wrappers

  // ---------------------------------------------------------------------------
  // Unsegmented runs
  // ---------------------------------------------------------------------------

  /** A flush that releases the current train leaves an empty one, which is stuck if the others are parked for long. */
  lemma FlushGetsStuck(c: Config, s: Endpoint) returns (s': Endpoint)
    requires Reachable(c, s) && s.yard.dispatched != [] && s.yard.train.riders != []
    requires s.yard.train.departure < s.yard.dispatched[0].departure
    requires s.clock + SIX_HOURS < s.yard.dispatched[0].departure
    ensures Reachable(c, s') && Stuck(s'.yard)
  {
    CargoEmpty(s.yard.train.riders);
    s' := Flushes(c, s);
  }

  lemma LongRetentionBlocks(c: Config, a: Identifier, b: Identifier) returns (s: Endpoint)
    requires Roomy(c) && Carriable(a) && Carriable(b)
    requires c.timing(b).retention < c.timing(a).retention && SIX_HOURS < c.timing(a).retention
    ensures Reachable(c, s) && Stuck(s.yard)
  {
    s := RetentionsDiffer(c, a, b);
    assert s.yard.dispatched[0] in s.yard.dispatched;
    s := FlushGetsStuck(c, s);
  }

  lemma LongDebounceBlocks(c: Config, id: Identifier) returns (s: Endpoint)
    requires Sane(c) && Roomy(c) && Carriable(id)
    requires c.timing(id).retention < c.timing(id).debounce && SIX_HOURS < c.timing(id).debounce
    ensures Reachable(c, s) && Stuck(s.yard)
  {
    s := DebounceExceeds(c, id);
    s := FlushGetsStuck(c, s);
  }

  /** No configured time exceeds the lifetime of an empty train, or all messages share one retention time. */
  ghost predicate Unblockable(c: Config) {
    Moderate(c) || exists r :: SharedRetention(c, r)
  }

  lemma UnblockableRuns(c: Config, start: Time, es: seq<TimedEvent>)
    requires Sane(c) && Unblockable(c) && Legal(c, Init(start), es) && Unsegmented(es)
    ensures !Stuck(Run(c, Init(start), es).yard)
  {
    if Moderate(c) {
      RunsNeverStuck(c, start, es, 0);
    } else {
      var r :| SharedRetention(c, r);
      SharedRunsAreFifo(c, r, start, es);
    }
  }

  /** Where neither holds, some method may wait, or has to wait, for longer than an empty train lives. */
  lemma BlockableBlocks(c: Config) returns (s: Endpoint)
    requires Sane(c) && Roomy(c) && !Unblockable(c)
    ensures Reachable(c, s) && Stuck(s.yard)
  {
    var m :| Carriable(m) && (c.timing(m).debounce > SIX_HOURS || c.timing(m).retention > SIX_HOURS);
    if c.timing(m).retention <= SIX_HOURS {
      s := LongDebounceBlocks(c, m);
    } else {
      assert !SharedRetention(c, c.timing(m).retention);
      var id :| Carriable(id) && !(c.timing(id).retention == c.timing(m).retention && c.timing(id).debounce <= c.timing(m).retention);
      if c.timing(id).retention < c.timing(m).retention {
        s := LongRetentionBlocks(c, m, id);
      } else if c.timing(id).retention > c.timing(m).retention {
        s := LongRetentionBlocks(c, id, m);
      } else {
        s := LongDebounceBlocks(c, id);
      }
    }
  }

  /**
   On unsegmented runs flushing never gets stuck, exactly if no configured time exceeds six hours, or
   all messages share one retention time and none has a debounce time above it.
   */
  lemma NeverStuckIff(c: Config)
    requires Sane(c) && Roomy(c)
    ensures (forall s :: Reachable(c, s) ==> !Stuck(s.yard)) <==> Unblockable(c)
  {
    if Unblockable(c) {
      forall s | Reachable(c, s)
        ensures !Stuck(s.yard)
      {
        var start, es :| Legal(c, Init(start), es) && Unsegmented(es) && s == Run(c, Init(start), es);
        UnblockableRuns(c, start, es);
      }
    } else {
      var s := BlockableBlocks(c);
    }
  }

  function UniformConfig(d: Duration, r: Duration): Config {
    Config(UINT32_MAX, UINT32_MAX, (id: Identifier) => Timing(d, r))
  }

  /** With the same times for all methods only a debounce time above six hours and the retention time blocks. */
  lemma UniformNeverStuckIff(d: Duration, r: Duration)
    requires 0 <= d < DURATION_MAX && 0 <= r < DURATION_MAX
    ensures (forall s :: Reachable(UniformConfig(d, r), s) ==> !Stuck(s.yard)) <==> d <= r || d <= SIX_HOURS
  {
    var c := UniformConfig(d, r);
    NeverStuckIff(c);
    assert Carriable(Identifier(0, 0));
    assert d <= r ==> SharedRetention(c, r);
    assert forall q :: SharedRetention(c, q) ==> c.timing(Identifier(0, 0)) == Timing(d, q);
    assert Moderate(c) <==> c.timing(Identifier(0, 0)).debounce <= SIX_HOURS && r <= SIX_HOURS;
  }

  // ---------------------------------------------------------------------------
  // Leaving the exceptional state
  // ---------------------------------------------------------------------------

  /** A message that is accepted and boards a train. */
  predicate Boarding(c: Config, s: Endpoint, e: TimedEvent) {
    e.event.Submit? && Accepts(c, s, e.event.data, e.event.tp) && FitsMessageSize(c, |e.event.data|)
  }

  /** A stuck yard stays stuck until the next message that boards a train, and no longer. */
  lemma StuckUntilBoarding(c: Config, s: Endpoint, e: TimedEvent)
    requires ShapeOk(c, s.yard) && Stuck(s.yard)
    ensures Stuck(Step(c, s, e).yard) <==> !Boarding(c, s, e)
  {
    PassengersIffRiders(c, s.yard.train);
    if e.event.Flush? || e.event.TimerFires? {
      YardStep(c, s, e);
      StuckStaysStuck(s.yard, e.now);
      StuckStaysStuck(s.yard.(timer := Idle), e.now);
    }
  }

  // ---------------------------------------------------------------------------
  // Segmentation
  // ---------------------------------------------------------------------------

  /**
   When a segmented message sends waiting passengers off, the yard gets stuck exactly if the
   segments' retention time ends before every parked train, the one just parked included.
   */
  lemma SegmentsBlockIff(c: Config, y: Yard, lastDeparture: Option<Time>, now: Time, timing: Timing)
    requires ShapeOk(c, y) && y.train.passengers != {}
    ensures Stuck(MakeRoom(y, lastDeparture, now, timing)) <==>
              && now + timing.retention < ScheduledDeparture(Lower(y.train, timing), lastDeparture)
              && (y.dispatched != [] ==> now + timing.retention < y.dispatched[0].departure)
  {
    FirstInLine(y.dispatched, Scheduled(Lower(y.train, timing), lastDeparture));
  }

  /** The front of a sorted line into which a train is filed leaves first. */
  lemma FirstInLine(line: seq<Train>, t: Train)
    requires Sorted(line)
    ensures var first := File(line, t)[0].departure;
            first == if line == [] then t.departure else Min(t.departure, line[0].departure)
  {
    var k := Slot(Departures(line), t.departure);
    SlotBounds(Departures(line), t.departure);
    if k > 0 {
      assert File(line, t)[0] == line[0];
      assert Departures(line)[0] <= t.departure;
    }
  }

  /** Method 1 may wait long, every other method only briefly. */
  function MixedConfig(): Config {
    Config(4, UINT32_MAX, (id: Identifier) => if id.method_ == 1 then Timing(0, 100) else Timing(0, 5))
  }

  /** A message that is too large and is cut into segments of a brief method. */
  function TooLarge(): Event {
    Submit([0, 1, 0, 2, 0], Some(Segmentation([[0, 1, 0, 2]], 0)))
  }

  lemma TooLargeAfterPatient(s: Endpoint) returns (s': Endpoint)
    requires |s.yard.train.riders| == 1 && s.yard.train.passengers != {} && s.yard.train.departure == 100
    requires s.yard.dispatched == [] && s.lastDeparture == None && !s.blocked
    ensures s' == Step(MixedConfig(), s, At(0, TooLarge()))
    ensures Waiting(s'.yard) != [] && Stuck(s'.yard)
  {
    s' := Step(MixedConfig(), s, At(0, TooLarge()));
    var parked := Scheduled(Lower(s.yard.train, Timing(0, 5)), None);
    assert File([], parked) == [parked];
    assert s'.yard == MakeRoom(s.yard, None, 0, Timing(0, 5));
    assert Waiting(s'.yard)[0] == parked.riders[0];
  }

  /** Some legal run, segmented or not, leads to `s`. */
  ghost predicate Attainable(c: Config, s: Endpoint) {
    exists start, es :: Legal(c, Init(start), es) && s == Run(c, Init(start), es)
  }

  lemma StepAttainable(c: Config, s: Endpoint, e: TimedEvent)
    requires Reachable(c, s) && Enabled(s, e)
    ensures Attainable(c, Step(c, s, e))
  {
    var start, es :| Legal(c, Init(start), es) && Unsegmented(es) && s == Run(c, Init(start), es);
    assert (es + [e])[..|es|] == es;
    assert Legal(c, Init(start), es + [e]);
  }

  /** A message waits and no flush at any time releases it. */
  ghost predicate Deadlocked(y: Yard) {
    Waiting(y) != [] && forall now :: FlushYard(y, now).train == None
  }

  lemma StuckIsDeadlocked(y: Yard)
    requires Stuck(y) && Waiting(y) != []
    ensures Deadlocked(y)
  {
    forall now ensures FlushYard(y, now).train == None {
      StuckStaysStuck(y, now);
    }
  }

  /** Segmentation can block the parked trains although all configured times are moderate. */
  lemma SegmentsCanBlock() returns (c: Config, s: Endpoint)
    ensures Sane(c) && Moderate(c) && Attainable(c, s) && Deadlocked(s.yard)
  {
    c := MixedConfig();
    InitReachable(c, 0);
    var s1 := Boards(c, Init(0), 0, To(Identifier(1, 1)));
    s := TooLargeAfterPatient(s1);
    StepAttainable(c, s1, At(0, TooLarge()));
    StuckIsDeadlocked(s.yard);
  }
}
