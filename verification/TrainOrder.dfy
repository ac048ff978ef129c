/**
 The order in which messages enter the send queue: when it is the order of acceptance, exactly
 when a flush lets a later message overtake, and runs on which the order, the debounce time or
 progress is lost.
 */
module TrainOrder {
  import opened Bytes
  import opened TrainModel
  import opened TrainInvariants
  import opened TrainTiming
  import opened Wrappers

  /** First in, first out: what entered the queue and then what waits is what was accepted. */
  ghost predicate Fifo(s: Endpoint) {
    s.outbox.entered + Waiting(s.yard) == s.accepted
  }

  // ---------------------------------------------------------------------------
  // One flush
  // ---------------------------------------------------------------------------

  /** No message waits twice. */
  ghost predicate Distinct(riders: seq<Rider>) {
    forall i, j :: 0 <= i < j < |riders| ==> riders[i] != riders[j]
  }

  /** A flush releases the messages that waited longest exactly if it turns to the parked line first. */
  lemma FlushInOrderIff(c: Config, y: Yard, now: Time)
    requires ShapeOk(c, y) && Distinct(Waiting(y))
    requires FlushYard(y, now).train.Some?
    ensures Waiting(y) == Departing(FlushYard(y, now)) + Waiting(FlushYard(y, now).yard)
            <==> y.dispatched == [] || y.dispatched[0].departure <= y.train.departure
  {
    var f := FlushYard(y, now);
    CargoEmpty(y.train.riders);
    if TakesParked(y) {
      FlushParked(y, now);
    } else {
      FlushCurrent(y, now);
      if y.dispatched != [] {
        assert y.dispatched[0] in y.dispatched;
        assert Waiting(y)[0] == y.dispatched[0].riders[0];
        assert Waiting(y)[|Aboard(y.dispatched)|] == y.train.riders[0];
      }
    }
  }

  // ---------------------------------------------------------------------------
  // One retention time
  // ---------------------------------------------------------------------------

  /** All messages may wait equally long, and none has to keep a longer distance than that. */
  ghost predicate SharedRetention(c: Config, r: Duration) {
    forall id :: Carriable(id) ==> c.timing(id).retention == r && c.timing(id).debounce <= r
  }

  /** Parked trains leave no later than the current one, which carries messages, and nobody later than the
      retention time from now. */
  ghost predicate InLine(y: Yard, r: Duration, clock: Time) {
    && (y.train.riders == [] ==> y.dispatched == [])
    && (forall t :: t in y.dispatched ==> t.departure <= clock + r)
    && (y.train.riders != [] ==>
          && y.train.departure <= clock + r
          && y.train.minDebounce <= r
          && forall t :: t in y.dispatched ==> t.departure <= y.train.departure)
  }

  lemma FileAtTheEnd(line: seq<Train>, t: Train)
    requires forall u :: u in line ==> u.departure <= t.departure
    ensures File(line, t) == line + [t]
    ensures Aboard(File(line, t)) == Aboard(line) + t.riders
  {
    var k := Slot(Departures(line), t.departure);
    SlotBounds(Departures(line), t.departure);
    assert forall i :: 0 <= i < |line| ==> line[i].departure <= t.departure;
    AboardConcat(line, [t]);
    assert Aboard([t]) == t.riders + Aboard([t][1..]) == t.riders;
  }

  lemma AdmitInLine(c: Config, y: Yard, lastDeparture: Option<Time>, rider: Rider, r: Duration)
    requires ShapeOk(c, y) && rider.timing.retention == r && rider.timing.debounce <= r
    requires InLine(y, r, rider.arrival) && InThePast(lastDeparture, rider.arrival)
    ensures InLine(Admit(c, y, lastDeparture, rider), r, rider.arrival)
  {
    PassengersIffRiders(c, y.train);
    if MustDepart(c, y.train, rider) {
      FileAtTheEnd(y.dispatched, Scheduled(y.train, lastDeparture));
    }
  }

  lemma AdmitAppends(c: Config, y: Yard, lastDeparture: Option<Time>, rider: Rider, r: Duration)
    requires ShapeOk(c, y) && InLine(y, r, rider.arrival)
    ensures Waiting(Admit(c, y, lastDeparture, rider)) == Waiting(y) + [rider]
  {
    PassengersIffRiders(c, y.train);
    if MustDepart(c, y.train, rider) {
      FileAtTheEnd(y.dispatched, Scheduled(y.train, lastDeparture));
    }
  }

  lemma FlushInLine(c: Config, y: Yard, now: Time, r: Duration)
    requires ShapeOk(c, y) && InLine(y, r, now)
    ensures InLine(FlushYard(y, now).yard, r, now)
    ensures Waiting(y) == Departing(FlushYard(y, now)) + Waiting(FlushYard(y, now).yard)
  {
    CargoEmpty(y.train.riders);
    assert y.dispatched != [] ==> y.dispatched[0] in y.dispatched;
    if TakesParked(y) {
      FlushParked(y, now);
    } else {
      FlushCurrent(y, now);
    }
  }

  lemma FlushKeepsFifo(c: Config, s: Endpoint, now: Time, r: Duration)
    requires ShapeOk(c, s.yard) && InLine(s.yard, r, now) && Fifo(s)
    ensures Fifo(FlushTrains(s, now))
  {
    FlushInLine(c, s.yard, now, r);
    FlushEnters(s, now);
    var f := FlushYard(s.yard, now);
    Regroup(s.outbox.entered, Departing(f), Waiting(f.yard));
  }

  lemma SendKeepsFifo(c: Config, s: Endpoint, now: Time, data: Message, r: Duration)
    requires ShapeOk(c, s.yard) && InLine(s.yard, r, now) && Fifo(s)
    ensures Fifo(Send(c, s, now, data, None))
  {
    var rider := NewRider(c, s, now, data);
    AdmitAppends(c, s.yard, s.lastDeparture, rider, r);
    Regroup(s.outbox.entered, Waiting(s.yard), [rider]);
  }

  lemma StepKeepsFifo(c: Config, s: Endpoint, e: TimedEvent, r: Duration)
    requires ShapeOk(c, s.yard) && Enabled(s, e) && InLine(s.yard, r, s.clock) && Fifo(s)
    requires e.event.Submit? ==> e.event.tp.None?
    ensures Fifo(Step(c, s, e))
  {
    var s0 := s.(clock := e.now);
    match e.event
    case Submit(data, tp) => SendKeepsFifo(c, s0, e.now, data, r);
    case Flush => FlushKeepsFifo(c, s0, e.now, r);
    case TimerFires => FlushKeepsFifo(c, TimerOff(s0), e.now, r);
    case _ =>
      var s' := Step(c, s, e);
      assert s'.yard == s.yard && s'.accepted == s.accepted && s'.outbox.entered == s.outbox.entered;
  }

  lemma StepKeepsInLine(c: Config, s: Endpoint, e: TimedEvent, r: Duration)
    requires ShapeOk(c, s.yard) && SharedRetention(c, r) && Enabled(s, e)
    requires InLine(s.yard, r, s.clock) && InThePast(s.lastDeparture, s.clock)
    requires e.event.Submit? ==> e.event.tp.None?
    ensures InLine(Step(c, s, e).yard, r, e.now) && InThePast(Step(c, s, e).lastDeparture, e.now)
  {
    YardStep(c, s, e);
    assert InLine(s.yard, r, e.now);
    match e.event
    case Submit(data, tp) => AdmitInLine(c, s.yard, s.lastDeparture, NewRider(c, s, e.now, data), r);
    case Flush => FlushInLine(c, s.yard, e.now, r);
    case TimerFires => FlushInLine(c, s.yard.(timer := Idle), e.now, r);
    case _ =>
  }

  /**
   First in, first out: with one retention time, no debounce time above it, and no segmentation,
   messages enter the queue in exactly the order of acceptance, for every interleaving of sends,
   flushes, timers, completions, failures, reconnects, stops and restarts.
   */
  lemma {:induction false} SharedRunsAreFifo(c: Config, r: Duration, start: Time, es: seq<TimedEvent>)
    requires Sane(c) && SharedRetention(c, r) && Legal(c, Init(start), es) && Unsegmented(es)
    ensures var s := Run(c, Init(start), es);
            Fifo(s) && InLine(s.yard, r, s.clock) && InThePast(s.lastDeparture, s.clock)
  {
    if es != [] {
      var s0, e := Run(c, Init(start), es[..|es| - 1]), es[|es| - 1];
      SharedRunsAreFifo(c, r, start, es[..|es| - 1]);
      RunsConserve(c, start, es[..|es| - 1]);
      YardStep(c, s0, e);
      StepKeepsFifo(c, s0, e, r);
      StepKeepsInLine(c, s0, e, r);
    }
  }

  // ---------------------------------------------------------------------------
  // Runs that lose order, debouncing or progress
  // ---------------------------------------------------------------------------

  /** A message to the given method. */
  function To(id: Identifier): Message
    requires Carriable(id)
  {
    [(id.service / 256) as byte, (id.service % 256) as byte, (id.method_ / 256) as byte, (id.method_ % 256) as byte]
  }

  lemma IdentifyTo(id: Identifier)
    requires Carriable(id)
    ensures Identify(To(id)) == id
  {
  }

  /** Some legal run without segmentation leads to `s`. */
  ghost predicate Reachable(c: Config, s: Endpoint) {
    exists start, es :: Legal(c, Init(start), es) && Unsegmented(es) && s == Run(c, Init(start), es)
  }

  lemma InitReachable(c: Config, start: Time)
    ensures Reachable(c, Init(start))
  {
    assert Legal(c, Init(start), []) && Unsegmented([]) && Init(start) == Run(c, Init(start), []);
  }

  lemma StepReachable(c: Config, s: Endpoint, e: TimedEvent)
    requires Reachable(c, s) && Enabled(s, e) && (e.event.Submit? ==> e.event.tp.None?)
    ensures Reachable(c, Step(c, s, e))
  {
    var start, es :| Legal(c, Init(start), es) && Unsegmented(es) && s == Run(c, Init(start), es);
    assert (es + [e])[..|es|] == es;
    assert Legal(c, Init(start), es + [e]) && Unsegmented(es + [e]);
  }

  /** Trains hold any message, the queue is unlimited. */
  ghost predicate Roomy(c: Config) {
    c.maxMessageSize == UINT32_MAX && c.queueLimit == UINT32_MAX
  }

  /** A message is accepted. */
  lemma Submits(c: Config, s: Endpoint, data: Message) returns (s': Endpoint)
    requires Reachable(c, s) && Roomy(c) && !s.blocked
    ensures Reachable(c, s') && s'.clock == s.clock && s'.outbox == s.outbox && |s'.accepted| == |s.accepted| + 1
    ensures s'.yard == Admit(c, s.yard, s.lastDeparture, NewRider(c, s, s.clock, data))
  {
    s' := Step(c, s, At(s.clock, Submit(data, None)));
    StepReachable(c, s, At(s.clock, Submit(data, None)));
  }

  /** A message boards the train as it stands. */
  lemma Boards(c: Config, s: Endpoint, now: Time, data: Message) returns (s': Endpoint)
    requires Reachable(c, s) && s.clock <= now && Accepts(c, s, data, None)
    requires !MustDepart(c, s.yard.train, NewRider(c, s, now, data))
    ensures Reachable(c, s')
    ensures var rider := NewRider(c, s, now, data);
            s' == s.(yard := StartTimer(s.yard.(train := Board(s.yard.train, rider)), now),
                     accepted := s.accepted + [rider], clock := now)
  {
    s' := Step(c, s, At(now, Submit(data, None)));
    StepReachable(c, s, At(now, Submit(data, None)));
  }

  /** A message sends the current train off and boards the next one. */
  lemma Displaces(c: Config, s: Endpoint, now: Time, data: Message) returns (s': Endpoint)
    requires Reachable(c, s) && s.clock <= now && Accepts(c, s, data, None) && s.yard.dispatched == []
    requires MustDepart(c, s.yard.train, NewRider(c, s, now, data))
    ensures Reachable(c, s')
    ensures var rider := NewRider(c, s, now, data);
            var y := Yard(Board(EmptyTrain(now), rider), [Scheduled(s.yard.train, s.lastDeparture)], s.yard.timer);
            s' == s.(yard := StartTimer(y, now), accepted := s.accepted + [rider], clock := now)
  {
    s' := Step(c, s, At(now, Submit(data, None)));
    StepReachable(c, s, At(now, Submit(data, None)));
    assert File([], Scheduled(s.yard.train, s.lastDeparture)) == [Scheduled(s.yard.train, s.lastDeparture)];
  }

  /** The timer fires and releases a train: the yard after it, the queue and the releases. */
  lemma Fires(c: Config, s: Endpoint, now: Time) returns (s': Endpoint)
    requires Reachable(c, s) && s.clock <= now && s.yard.timer.Armed? && s.yard.timer.at <= now
    requires FlushYard(s.yard.(timer := Idle), now).train.Some?
    ensures Reachable(c, s')
    ensures var f := FlushYard(s.yard.(timer := Idle), now);
            && s'.yard == f.yard
            && s'.outbox.entered == s.outbox.entered + f.train.value.riders
            && s'.released == s.released + [Release(f.train.value, now)]
            && (s.outbox.queue == [] && !s.outbox.isSending ==> |s'.outbox.queue| == 1 && s'.outbox.inflight > 0)
    ensures s'.accepted == s.accepted && s'.lastDeparture == s.lastDeparture && s'.blocked == s.blocked && s'.clock == now
  {
    s' := Step(c, s, At(now, TimerFires));
    StepReachable(c, s, At(now, TimerFires));
    FlushEnters(TimerOff(s.(clock := now)), now);
  }

  /** The only queued train has been written. */
  lemma Writes(c: Config, s: Endpoint, now: Time) returns (s': Endpoint)
    requires Reachable(c, s) && s.clock <= now && |s.outbox.queue| == 1 && s.outbox.inflight > 0
    ensures Reachable(c, s')
    ensures s'.yard == s.yard && s'.accepted == s.accepted && s'.released == s.released && s'.blocked == s.blocked
    ensures s'.lastDeparture == Some(now) && s'.clock == now
    ensures s'.outbox.entered == s.outbox.entered && s'.outbox.queue == [] && !s'.outbox.isSending
  {
    s' := Step(c, s, At(now, WriteDone));
    StepReachable(c, s, At(now, WriteDone));
  }

  /** A flush that is asked for releases a train: the yard after it, and what entered the queue. */
  lemma Flushes(c: Config, s: Endpoint) returns (s': Endpoint)
    requires Reachable(c, s) && FlushYard(s.yard, s.clock).train.Some?
    ensures Reachable(c, s') && s'.accepted == s.accepted
    ensures var f := FlushYard(s.yard, s.clock);
            s'.yard == f.yard && s'.outbox.entered == s.outbox.entered + f.train.value.riders
  {
    s' := Step(c, s, At(s.clock, Event.Flush));
    StepReachable(c, s, At(s.clock, Event.Flush));
    FlushEnters(s.(clock := s.clock), s.clock);
  }

  /** Two messages to one method at the same time: the first is parked until `parked`, the second waits until `due`. */
  ghost predicate TwoWait(s: Endpoint, parked: Time, due: Time) {
    && |s.yard.dispatched| == 1 && s.yard.dispatched[0].riders != [] && s.yard.dispatched[0].departure == parked
    && |s.yard.train.riders| == 1 && s.yard.train.passengers != {} && s.yard.train.departure == due
    && s.yard.train.riders[0].ticket == |s.accepted| - 1
    && |s.outbox.entered| == |s.accepted| - 2 && !s.blocked
  }

  /** Another message to the method of the only passenger: the train is parked, and the message waits alone. */
  lemma Second(c: Config, s: Endpoint, id: Identifier) returns (s': Endpoint)
    requires Reachable(c, s) && Roomy(c) && Carriable(id) && !s.blocked && s.yard.dispatched == []
    requires s.yard.train.passengers == {id} && |s.yard.train.riders| == 1 && |s.outbox.entered| == |s.accepted| - 1
    ensures Reachable(c, s') && s'.clock == s.clock && s'.lastDeparture == s.lastDeparture
    ensures s'.outbox == s.outbox && |s'.accepted| == |s.accepted| + 1 && s'.released == s.released
    ensures s'.yard.dispatched != [] && s'.yard.dispatched[0].riders == s.yard.train.riders
    ensures s'.yard.train.riders != [] && Identify(s'.yard.train.riders[0].data) == id
    ensures s'.yard.timer == Armed(Max(s.clock, NextDeparture(s'.yard)))
    ensures TwoWait(s', ScheduledDeparture(s.yard.train, s.lastDeparture), s.clock + c.timing(id).retention)
  {
    IdentifyTo(id);
    s' := Displaces(c, s, s.clock, To(id));
  }

  /** Some message is overtaken: an older one still waits when the flush has released a younger one. */
  lemma FlushOvertakes(c: Config, s: Endpoint) returns (s': Endpoint)
    requires Reachable(c, s) && Conserved(s) && s.yard.dispatched != [] && s.yard.train.riders != []
    requires s.yard.dispatched[0].departure > s.yard.train.departure
    requires |s.accepted| > |s.outbox.entered|
    requires forall r :: r in s.yard.train.riders ==> r.ticket > |s.outbox.entered|
    ensures Reachable(c, s') && !Fifo(s') && s'.yard == FlushYard(s.yard, s.clock).yard
  {
    CargoEmpty(s.yard.train.riders);
    var n, riders := |s.outbox.entered|, s.yard.train.riders;
    s' := Flushes(c, s);
    assert riders[0] in riders;
    assert (s'.outbox.entered + Waiting(s'.yard))[n] == riders[0];
    assert s'.accepted[n].ticket == n;
  }

  // ---------------------------------------------------------------------------
  // Different retention times
  // ---------------------------------------------------------------------------

  lemma FirstWaits(c: Config, id: Identifier) returns (s: Endpoint)
    requires Roomy(c) && Carriable(id)
    ensures Reachable(c, s) && s.clock == 0 && s.lastDeparture == None && !s.blocked
    ensures s.yard.dispatched == [] && s.yard.train.passengers == {id} && |s.yard.train.riders| == 1
    ensures s.yard.train.departure == c.timing(id).retention && s.outbox.entered == [] && |s.accepted| == 1
    ensures Identify(s.yard.train.riders[0].data) == id && s.yard.timer == Armed(Max(0, c.timing(id).retention))
    ensures s.released == [] && s.outbox == Init(0).outbox
  {
    IdentifyTo(id);
    InitReachable(c, 0);
    s := Boards(c, Init(0), 0, To(id));
  }

  /** The current train, of younger messages, is due at `due`, before everything that is parked until `parked`. */
  ghost predicate DueFirst(y: Yard, parked: Time, due: Time) {
    && y.dispatched != [] && (forall t :: t in y.dispatched ==> t.departure == parked)
    && y.train.riders != [] && y.train.departure == due
    && forall r :: r in y.train.riders ==> r.ticket > 0
  }

  lemma AdmitShorter(c: Config, y: Yard, rider: Rider, a: Time)
    requires |y.dispatched| == 1 && y.dispatched[0].departure == a && y.train.departure == a && y.train.passengers != {}
    requires Deadline(rider) < a && rider.ticket > 0 && forall r :: r in y.train.riders ==> r.ticket > 0
    ensures DueFirst(Admit(c, y, None, rider), a, Deadline(rider))
  {
    FileMembers(y.dispatched, Scheduled(y.train, None));
  }

  lemma TwoAlike(c: Config, id: Identifier) returns (s: Endpoint)
    requires Roomy(c) && Carriable(id)
    ensures Reachable(c, s) && s.clock == 0 && s.lastDeparture == None && s.outbox.entered == [] && |s.accepted| == 2
    ensures TwoWait(s, c.timing(id).retention, c.timing(id).retention)
  {
    s := FirstWaits(c, id);
    s := Second(c, s, id);
  }

  /** In every configuration with two retention times: a message that may wait less is due before an older one. */
  lemma RetentionsDiffer(c: Config, a: Identifier, b: Identifier) returns (s: Endpoint)
    requires Roomy(c) && Carriable(a) && Carriable(b) && c.timing(b).retention < c.timing(a).retention
    ensures Reachable(c, s) && s.clock == 0 && s.outbox.entered == [] && s.accepted != []
    ensures DueFirst(s.yard, c.timing(a).retention, c.timing(b).retention)
  {
    s := TwoAlike(c, a);
    IdentifyTo(b);
    assert s.yard.train.riders == [s.yard.train.riders[0]];
    AdmitShorter(c, s.yard, NewRider(c, s, 0, To(b)), c.timing(a).retention);
    s := Submits(c, s, To(b));
  }

  // ---------------------------------------------------------------------------
  // A debounce time above the retention time
  // ---------------------------------------------------------------------------

  /** The first message has been written, and the next one waits. */
  lemma FirstWritten(c: Config, id: Identifier) returns (s: Endpoint)
    requires Roomy(c) && Carriable(id) && 0 <= c.timing(id).retention < DURATION_MAX && 0 <= c.timing(id).debounce < DURATION_MAX
    ensures var r := c.timing(id).retention;
            && Reachable(c, s) && s.clock == r && s.lastDeparture == Some(r) && !s.blocked
            && s.yard.dispatched == [] && s.yard.train.passengers == {id} && |s.yard.train.riders| == 1
            && s.yard.train.departure == 2 * r && s.yard.train.minDebounce == c.timing(id).debounce
            && |s.outbox.entered| == 1 && |s.accepted| == 2
  {
    var r := c.timing(id).retention;
    IdentifyTo(id);
    s := FirstWaits(c, id);
    CargoEmpty(s.yard.train.riders);
    s := Fires(c, s, r);
    s := Writes(c, s, r);
    s := Boards(c, s, r, To(id));
  }

  /** In every configuration with a debounce time above the retention time of its method: the next message
      but one is due before the next one, which is held back. */
  lemma DebounceExceeds(c: Config, id: Identifier) returns (s: Endpoint)
    requires Sane(c) && Roomy(c) && Carriable(id) && c.timing(id).retention < c.timing(id).debounce
    ensures var r, d := c.timing(id).retention, c.timing(id).debounce;
            Reachable(c, s) && s.clock == r && |s.outbox.entered| == 1 && |s.accepted| == 3 && TwoWait(s, r + d, 2 * r)
  {
    s := FirstWritten(c, id);
    s := Second(c, s, id);
  }

  // ---------------------------------------------------------------------------
  // The exact condition
  // ---------------------------------------------------------------------------

  lemma ReachableConserved(c: Config, s: Endpoint)
    requires Sane(c) && Reachable(c, s)
    ensures Conserved(s)
  {
    var start, es :| Legal(c, Init(start), es) && Unsegmented(es) && s == Run(c, Init(start), es);
    RunsConserve(c, start, es);
  }

  lemma UnequalOvertakes(c: Config, a: Identifier, b: Identifier) returns (s: Endpoint)
    requires Sane(c) && Roomy(c) && Carriable(a) && Carriable(b) && c.timing(b).retention < c.timing(a).retention
    ensures Reachable(c, s) && !Fifo(s)
  {
    s := RetentionsDiffer(c, a, b);
    ReachableConserved(c, s);
    assert s.yard.dispatched[0] in s.yard.dispatched;
    s := FlushOvertakes(c, s);
  }

  lemma LongDebounceOvertakes(c: Config, id: Identifier) returns (s: Endpoint)
    requires Sane(c) && Roomy(c) && Carriable(id) && c.timing(id).retention < c.timing(id).debounce
    ensures Reachable(c, s) && !Fifo(s)
  {
    s := DebounceExceeds(c, id);
    ReachableConserved(c, s);
    assert s.yard.train.riders == [s.yard.train.riders[0]];
    s := FlushOvertakes(c, s);
  }

  /**
   The order of acceptance is kept on all unsegmented runs exactly if all messages share one
   retention time and none has a debounce time above it.
   */
  lemma FifoIff(c: Config)
    requires Sane(c) && Roomy(c)
    ensures (forall s :: Reachable(c, s) ==> Fifo(s)) <==> exists r :: SharedRetention(c, r)
  {
    var zero := Identifier(0, 0);
    var r0 := c.timing(zero).retention;
    if r :| SharedRetention(c, r) {
      forall s | Reachable(c, s)
        ensures Fifo(s)
      {
        var start, es :| Legal(c, Init(start), es) && Unsegmented(es) && s == Run(c, Init(start), es);
        SharedRunsAreFifo(c, r, start, es);
      }
    } else {
      assert !SharedRetention(c, r0);
      var id :| Carriable(id) && !(c.timing(id).retention == r0 && c.timing(id).debounce <= r0);
      var s;
      if c.timing(id).retention < r0 {
        s := UnequalOvertakes(c, zero, id);
      } else if c.timing(id).retention > r0 {
        s := UnequalOvertakes(c, id, zero);
      } else {
        s := LongDebounceOvertakes(c, id);
      }
    }
  }

  // ---------------------------------------------------------------------------
  // The debounce promise
  // ---------------------------------------------------------------------------

  ghost predicate Carries(l: Release, id: Identifier) {
    exists r :: r in l.train.riders && Identify(r.data) == id
  }

  /** Trains that carry messages to the same method enter the queue at least its debounce time apart. */
  ghost predicate Spaced(c: Config, s: Endpoint) {
    forall i, j, id :: 0 <= i < j < |s.released| && Carries(s.released[i], id) && Carries(s.released[j], id)
      ==> s.released[i].at + c.timing(id).debounce <= s.released[j].at
  }

  ghost predicate Chronological(s: Endpoint) {
    && (forall i, j :: 0 <= i < j < |s.released| ==> s.released[i].at <= s.released[j].at)
    && forall l :: l in s.released ==> l.at <= s.clock
  }

  lemma {:induction false} RunsAreChronological(c: Config, start: Time, es: seq<TimedEvent>)
    requires Legal(c, Init(start), es)
    ensures Chronological(Run(c, Init(start), es))
  {
    if es != [] {
      RunsAreChronological(c, start, es[..|es| - 1]);
      StepReleases(c, Run(c, Init(start), es[..|es| - 1]), es[|es| - 1]);
      YardStep(c, Run(c, Init(start), es[..|es| - 1]), es[|es| - 1]);
    }
  }

  lemma FlushParkedFirst(c: Config, s: Endpoint, r: Time, id: Identifier) returns (s': Endpoint)
    requires Reachable(c, s) && TwoWait(s, r, r) && s.clock <= r && s.yard.timer == Armed(r) && s.released == []
    requires exists rider :: rider in s.yard.dispatched[0].riders && Identify(rider.data) == id
    ensures Reachable(c, s') && s'.clock == r && |s'.released| == 1 && Carries(s'.released[0], id) && s'.released[0].at == r
    ensures s'.yard.dispatched == [] && s'.yard.train == s.yard.train && s'.yard.timer == Armed(r)
  {
    CargoEmpty(s.yard.dispatched[0].riders);
    s' := Fires(c, s, r);
  }

  /** Two messages to one method, sent at the same time, leave at the same time. */
  lemma TwoAtOnce(c: Config, id: Identifier) returns (s: Endpoint)
    requires Sane(c) && Roomy(c) && Carriable(id)
    ensures Reachable(c, s) && |s.released| == 2 && s.released[0].at == s.released[1].at
    ensures Carries(s.released[0], id) && Carries(s.released[1], id)
  {
    s := FirstWaits(c, id);
    s := Second(c, s, id);
    assert s.yard.dispatched[0].riders[0] in s.yard.dispatched[0].riders;
    s := FlushParkedFirst(c, s, c.timing(id).retention, id);
    assert s.yard.train.riders[0] in s.yard.train.riders;
    CargoEmpty(s.yard.train.riders);
    s := Fires(c, s, c.timing(id).retention);
  }

  /**
   The configured debounce time is documented as the minimal time between two messages to the
   same method. That holds on every unsegmented run exactly if all these times are zero.
   */
  lemma DebouncePromiseIff(c: Config)
    requires Sane(c) && Roomy(c)
    ensures (forall s :: Reachable(c, s) ==> Spaced(c, s)) <==> forall id :: Carriable(id) ==> c.timing(id).debounce == 0
  {
    if id :| Carriable(id) && c.timing(id).debounce != 0 {
      var s := TwoAtOnce(c, id);
      assert !Spaced(c, s);
    } else {
      forall s | Reachable(c, s)
        ensures Spaced(c, s)
      {
        var start, es :| Legal(c, Init(start), es) && Unsegmented(es) && s == Run(c, Init(start), es);
        RunsAreChronological(c, start, es);
      }
    }
  }
}
