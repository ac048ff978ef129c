/**
 Which messages are accepted, and which share a train: when a message joins those that wait in the current
 train, and when it sends them off, in terms of the messages and not of what the train remembers about them.
 */
module TrainBoarding {
  import opened Bytes
  import opened TrainModel
  import opened TrainInvariants
  import opened TrainTiming
  import opened TrainOrder
  import opened TrainWriter
  import opened Wrappers

  // ---------------------------------------------------------------------------
  // Acceptance
  // ---------------------------------------------------------------------------

  /** One entry per segment, each alone and with the separation time. */
  predicate SegmentEntries(entries: seq<Entry>, first: nat, now: Time, timing: Timing, tp: Segmentation) {
    |entries| == |tp.segments| && forall i | 0 <= i < |entries| ::
      entries[i] == Entry([Rider(first + i, tp.segments[i], now, timing)], tp.separation)
  }

  /** The segments follow what is queued. */
  predicate QueuesSegments(c: Config, s: Endpoint, s': Endpoint, now: Time, tp: Segmentation)
    requires tp.segments != []
  {
    var n := |s.outbox.queue|;
    && |s'.accepted| == |s.accepted| + |tp.segments| && n <= |s'.outbox.queue| && s'.outbox.queue[..n] == s.outbox.queue
    && SegmentEntries(s'.outbox.queue[n..], |s.accepted|, now, c.timing(Identify(tp.segments[0])), tp)
  }

  lemma SendQueuesSegments(c: Config, s: Endpoint, now: Time, tp: Segmentation)
    requires tp.segments != []
    ensures QueuesSegments(c, s, SendSegments(c, s, now, tp), now, tp)
  {
    var timing := c.timing(Identify(tp.segments[0]));
    var riders := SegmentRiders(|s.accepted|, now, timing, tp.segments);
    var entries := Singles(riders, tp.separation);
    var q := s.outbox.queue + entries;
    assert q[..|s.outbox.queue|] == s.outbox.queue && q[|s.outbox.queue|..] == entries;
  }

  /** The bytes queued leave room for a message. */
  predicate HasRoom(c: Config, s: Endpoint, size: nat) {
    c.queueLimit == UINT32_MAX || QueueBytes(s.outbox.queue) + size <= c.queueLimit
  }

  predicate IsSmall(c: Config, size: nat) {
    c.maxMessageSize == UINT32_MAX || size <= c.maxMessageSize
  }

  lemma SendIff(c: Config, s: Endpoint, now: Time, data: Message, tp: Option<Segmentation>)
    requires Accounted(s.outbox)
    ensures var s' := Send(c, s, now, data, tp);
            if s.blocked || !HasRoom(c, s, |data|) then s' == s
            else if IsSmall(c, |data|) then
              s'.accepted == s.accepted + [Rider(|s.accepted|, data, now, c.timing(Identify(data)))] && s'.outbox == s.outbox
            else if tp.Some? && tp.value.segments != [] then QueuesSegments(c, s, s', now, tp.value)
            else s' == s
  {
    if tp.Some? && tp.value.segments != [] {
      SendQueuesSegments(c, s, now, tp.value);
    }
  }

  /**
   In every run a message is accepted if and only if the endpoint is not blocked, the bytes queued leave room
   for it, and it is small enough or comes with segments. A small one then waits in a train; the segments of
   another one follow what is queued, each alone and with the separation time.
   */
  lemma RunsAcceptIff(c: Config, start: Time, es: seq<TimedEvent>, now: Time, data: Message, tp: Option<Segmentation>)
    requires Sane(c) && Legal(c, Init(start), es)
    ensures var s := Run(c, Init(start), es);
            var s' := Step(c, s, At(now, Submit(data, tp)));
            if (exists e <- es :: Blocks(e.event)) || !HasRoom(c, s, |data|) then s' == s.(clock := now)
            else if IsSmall(c, |data|) then
              s'.accepted == s.accepted + [Rider(|s.accepted|, data, now, c.timing(Identify(data)))] && s'.outbox == s.outbox
            else if tp.Some? && tp.value.segments != [] then QueuesSegments(c, s, s', now, tp.value)
            else s' == s.(clock := now)
  {
    RunsConserve(c, start, es);
    RunsBlockIff(c, start, es);
    SendIff(c, Ticked(Run(c, Init(start), es), now), now, data, tp);
  }

  /** A train that is flushed follows what is queued, as one entry without a separation time. */
  lemma FlushQueues(s: Endpoint, now: Time)
    ensures var s' := FlushTrains(s, now);
            if s'.released == s.released then s'.outbox == s.outbox
            else exists t: Train :: s'.released == s.released + [Release(t, now)]
                                    && s'.outbox.queue == s.outbox.queue + [Entry(t.riders, 0)]
  {
    var f := FlushYard(s.yard, now);
    if f.train.Some? {
      assert FlushTrains(s, now).released == s.released + [Release(f.train.value, now)];
    }
  }

  /** When the timer has fired, it is set again exactly if trains were parked. */
  lemma TimerRestartsIff(c: Config, s: Endpoint, now: Time)
    ensures Step(c, s, At(now, TimerFires)).yard.timer.Armed? <==> s.yard.dispatched != []
  {
  }

  // ---------------------------------------------------------------------------
  // What has shaped the current train
  // ---------------------------------------------------------------------------

  /** What a step has accepted. */
  function Accepted(s: Endpoint, s': Endpoint): seq<Rider> {
    if |s.accepted| <= |s'.accepted| then s'.accepted[|s.accepted|..] else []
  }

  /**
   The times of all messages that have shaped the current train, after a step from `s` to `s'`: of those
   that boarded it, and of segmented ones that were sent while it was empty.
   */
  function Shaping(s: Endpoint, s': Endpoint, before: seq<Timing>): seq<Timing> {
    var added, waited, waiting := Accepted(s, s'), |s.yard.train.riders|, |s'.yard.train.riders|;
    if added == [] then
      if waited > 0 && waiting == 0 then [] else before
    else if waited == 0 || waiting > waited then before + [added[0].timing]
    else if waiting == 0 then []
    else [added[0].timing]
  }

  function Shapers(c: Config, start: Time, es: seq<TimedEvent>): seq<Timing> {
    if es == [] then [] else
    Shaping(Run(c, Init(start), es[..|es| - 1]), Run(c, Init(start), es), Shapers(c, start, es[..|es| - 1]))
  }

  /** The smallest debounce and retention time among the given ones; the largest duration if there are none. */
  predicate Smallest(t: Train, ts: seq<Timing>) {
    && (ts == [] ==> t.minDebounce == DURATION_MAX && t.minRetention == DURATION_MAX)
    && (ts != [] ==> exists u <- ts :: u.debounce == t.minDebounce)
    && (ts != [] ==> exists u <- ts :: u.retention == t.minRetention)
    && forall u <- ts :: t.minDebounce <= u.debounce && t.minRetention <= u.retention
  }

  lemma LowerSmallest(t: Train, ts: seq<Timing>, u: Timing)
    requires Smallest(t, ts) && u.debounce < DURATION_MAX && u.retention < DURATION_MAX
    ensures Smallest(Lower(t, u), ts + [u])
  {
    var more := ts + [u];
    assert u in more && forall v :: v in more <==> v in ts || v == u;
  }

  lemma BoardSmallest(t: Train, ts: seq<Timing>, rider: Rider)
    requires Smallest(t, ts) && rider.timing.debounce < DURATION_MAX && rider.timing.retention < DURATION_MAX
    ensures Smallest(Board(t, rider), ts + [rider.timing])
  {
    LowerSmallest(t, ts, rider.timing);
  }

  predicate Shaped(t: Train, ts: seq<Timing>) {
    Smallest(t, ts) && (t.riders != [] ==> ts != [])
  }

  /** What a message that fits does to the yard. */
  lemma AdmitShapes(c: Config, s: Endpoint, now: Time, data: Message, ts: seq<Timing>)
    requires Sane(c) && ShapeOk(c, s.yard) && Shaped(s.yard.train, ts)
    ensures var rider := NewRider(c, s, now, data);
            var s' := s.(yard := Admit(c, s.yard, s.lastDeparture, rider), accepted := s.accepted + [rider]);
            Shaped(s'.yard.train, Shaping(s, s', ts))
  {
    var rider := NewRider(c, s, now, data);
    PassengersIffRiders(c, s.yard.train);
    BoardSmallest(s.yard.train, ts, rider);
    BoardSmallest(EmptyTrain(now), [], rider);
    assert (s.accepted + [rider])[|s.accepted|..] == [rider];
    assert [] + [rider.timing] == [rider.timing];
  }

  lemma SegmentsShape(c: Config, s: Endpoint, now: Time, tp: Segmentation, ts: seq<Timing>)
    requires Sane(c) && ShapeOk(c, s.yard) && Shaped(s.yard.train, ts)
    ensures Shaped(SendSegments(c, s, now, tp).yard.train, Shaping(s, SendSegments(c, s, now, tp), ts))
  {
    PassengersIffRiders(c, s.yard.train);
    if tp.segments != [] {
      var timing := c.timing(Identify(tp.segments[0]));
      var riders := SegmentRiders(|s.accepted|, now, timing, tp.segments);
      LowerSmallest(s.yard.train, ts, timing);
      assert (s.accepted + riders)[|s.accepted|..] == riders;
    }
  }

  lemma SendShapes(c: Config, s: Endpoint, now: Time, data: Message, tp: Option<Segmentation>, ts: seq<Timing>)
    requires Sane(c) && ShapeOk(c, s.yard) && Shaped(s.yard.train, ts)
    ensures Shaped(Send(c, s, now, data, tp).yard.train, Shaping(s, Send(c, s, now, data, tp), ts))
  {
    if Accepts(c, s, data, tp) {
      if FitsMessageSize(c, |data|) {
        AdmitShapes(c, s, now, data, ts);
      } else {
        SegmentsShape(c, s, now, tp.value, ts);
      }
    }
  }

  lemma FlushShapes(s: Endpoint, now: Time, ts: seq<Timing>)
    requires Shaped(s.yard.train, ts)
    ensures Shaped(FlushTrains(s, now).yard.train, Shaping(s, FlushTrains(s, now), ts))
  {
    CargoEmpty(s.yard.train.riders);
  }

  lemma QuietShapes(c: Config, s: Endpoint, e: TimedEvent, ts: seq<Timing>)
    requires !e.event.Submit? && !e.event.Flush? && !e.event.TimerFires?
    ensures Step(c, s, e).yard == s.yard && Shaping(s, Step(c, s, e), ts) == ts
  {
  }

  lemma StepShapes(c: Config, s: Endpoint, e: TimedEvent, ts: seq<Timing>)
    requires Sane(c) && ShapeOk(c, s.yard) && Shaped(s.yard.train, ts)
    ensures Shaped(Step(c, s, e).yard.train, Shaping(s, Step(c, s, e), ts))
  {
    var s0 := Ticked(s, e.now);
    if e.event.Submit? {
      SendShapes(c, s0, e.now, e.event.data, e.event.tp, ts);
    } else if e.event.Flush? {
      FlushShapes(s0, e.now, ts);
    } else if e.event.TimerFires? {
      FlushShapes(TimerOff(s0), e.now, ts);
    } else {
      QuietShapes(c, s, e, ts);
    }
  }

  /** In every run the train remembers exactly the smallest times of the messages that have shaped it. */
  lemma {:induction false} RunsShape(c: Config, start: Time, es: seq<TimedEvent>)
    requires Sane(c) && Legal(c, Init(start), es)
    ensures Shaped(Run(c, Init(start), es).yard.train, Shapers(c, start, es))
    decreases |es|
  {
    if es != [] {
      var before := es[..|es| - 1];
      RunsShape(c, start, before);
      RunsConserve(c, start, before);
      StepShapes(c, Run(c, Init(start), before), es[|es| - 1], Shapers(c, start, before));
    }
  }

  // ---------------------------------------------------------------------------
  // Boarding
  // ---------------------------------------------------------------------------

  /**
   The message can share a train with the messages on board, where `ts` are the times that have shaped
   it: it goes to another method than each of them, all bytes fit, its debounce time passes before
   anyone has to leave and within everyone's retention time, and it can wait for the smallest debounce time.
   */
  predicate Compatible(c: Config, riders: seq<Rider>, ts: seq<Timing>, rider: Rider) {
    && (forall r <- riders :: Identify(r.data) != Identify(rider.data))
    && |Cargo(riders)| + |rider.data| <= c.maxMessageSize
    && (forall r <- riders :: rider.arrival + rider.timing.debounce <= Deadline(r))
    && (forall t <- ts :: rider.timing.debounce <= t.retention)
    && (exists t <- ts :: t.debounce <= rider.timing.retention)
  }

  lemma MustDepartIff(c: Config, t: Train, ts: seq<Timing>, rider: Rider)
    requires WellFormed(c, t) && CurrentWindow(t) && Shaped(t, ts) && t.riders != []
    ensures MustDepart(c, t, rider) <==> !Compatible(c, t.riders, ts, rider)
  {
    PassengersIffRiders(c, t);
    assert Identify(rider.data) in t.passengers <==> exists r <- t.riders :: Identify(r.data) == Identify(rider.data);
    var first :| first in t.riders && t.departure == Deadline(first);
    var d :| d in ts && d.debounce == t.minDebounce;
    var r :| r in ts && r.retention == t.minRetention;
  }

  /** The message joins those that wait in the current train. */
  predicate Joins(s: Endpoint, s': Endpoint, rider: Rider) {
    s'.yard.dispatched == s.yard.dispatched && s'.yard.train.riders == s.yard.train.riders + [rider]
  }

  /** Those that wait in the current train are parked together, and the message waits alone. */
  predicate SendsOff(s: Endpoint, s': Endpoint, rider: Rider) {
    && s'.yard.train.riders == [rider] && |s'.yard.dispatched| == |s.yard.dispatched| + 1
    && exists t <- s'.yard.dispatched :: t.riders == s.yard.train.riders
  }

  lemma AdmitBoards(c: Config, y: Yard, lastDeparture: Option<Time>, rider: Rider)
    ensures var y' := Admit(c, y, lastDeparture, rider);
            if MustDepart(c, y.train, rider)
            then y'.dispatched == File(y.dispatched, Scheduled(y.train, lastDeparture)) && y'.train.riders == [rider]
            else y'.dispatched == y.dispatched && y'.train.riders == y.train.riders + [rider]
  {
  }

  lemma SendBoardsIff(c: Config, s: Endpoint, e: TimedEvent, ts: seq<Timing>)
    requires ShapeOk(c, s.yard) && CurrentWindow(s.yard.train) && Shaped(s.yard.train, ts)
    requires e.event.Submit? && Accepts(c, s, e.event.data, e.event.tp) && FitsMessageSize(c, |e.event.data|)
    ensures var s', rider := Step(c, s, e), NewRider(c, s, e.now, e.event.data);
            && (Joins(s, s', rider) <==> s.yard.train.riders == [] || Compatible(c, s.yard.train.riders, ts, rider))
            && (SendsOff(s, s', rider) <==> !Joins(s, s', rider))
  {
    var rider := NewRider(c, s, e.now, e.event.data);
    var y' := Step(c, s, e).yard;
    assert y' == Admit(c, s.yard, s.lastDeparture, rider);
    AdmitBoards(c, s.yard, s.lastDeparture, rider);
    PassengersIffRiders(c, s.yard.train);
    if s.yard.train.riders != [] {
      MustDepartIff(c, s.yard.train, ts, rider);
    }
    var parked := Scheduled(s.yard.train, s.lastDeparture);
    FileMembers(s.yard.dispatched, parked);
    assert |File(s.yard.dispatched, parked)| == |s.yard.dispatched| + 1;
    assert parked.riders == s.yard.train.riders;
  }

  /**
   In every reachable state, segmented messages or not: an accepted message joins those that wait in the
   current train if and only if nobody waits there or it is compatible with them; otherwise it
   sends them off together and waits alone.
   */
  lemma BoardsIff(c: Config, start: Time, es: seq<TimedEvent>, e: TimedEvent)
    requires Sane(c) && Legal(c, Init(start), es) && e.event.Submit?
    requires var s := Run(c, Init(start), es); Accepts(c, s, e.event.data, e.event.tp) && FitsMessageSize(c, |e.event.data|)
    ensures var s := Run(c, Init(start), es);
            var s', rider, riders := Step(c, s, e), NewRider(c, s, e.now, e.event.data), s.yard.train.riders;
            && (Joins(s, s', rider) <==> riders == [] || Compatible(c, riders, Shapers(c, start, es), rider))
            && (SendsOff(s, s', rider) <==> !Joins(s, s', rider))
  {
    RunsShape(c, start, es);
    RunsConserve(c, start, es);
    RunsWakeUp(c, start, es);
    SendBoardsIff(c, Run(c, Init(start), es), e, Shapers(c, start, es));
  }

  // ---------------------------------------------------------------------------
  // Without segmented messages
  // ---------------------------------------------------------------------------

  function Timings(riders: seq<Rider>): seq<Timing> {
    seq(|riders|, i requires 0 <= i < |riders| => riders[i].timing)
  }

  lemma SendShapesByRiders(c: Config, s: Endpoint, now: Time, data: Message)
    ensures var s' := Send(c, s, now, data, None);
            Shaping(s, s', Timings(s.yard.train.riders)) == Timings(s'.yard.train.riders)
  {
    if Accepts(c, s, data, None) {
      var rider := NewRider(c, s, now, data);
      AdmitBoards(c, s.yard, s.lastDeparture, rider);
      AcceptedOne(s, Send(c, s, now, data, None), rider);
      TimingsMore(s.yard.train.riders, rider);
    }
  }

  lemma AcceptedOne(s: Endpoint, s': Endpoint, rider: Rider)
    requires s'.accepted == s.accepted + [rider]
    ensures Accepted(s, s') == [rider]
  {
  }

  lemma TimingsMore(riders: seq<Rider>, rider: Rider)
    ensures Timings(riders + [rider]) == Timings(riders) + [rider.timing] && Timings([rider]) == [rider.timing]
  {
  }

  lemma FlushShapesByRiders(s: Endpoint, now: Time)
    ensures var s' := FlushTrains(s, now);
            Shaping(s, s', Timings(s.yard.train.riders)) == Timings(s'.yard.train.riders)
  {
    CargoEmpty(s.yard.train.riders);
  }

  lemma {:induction false} UnsegmentedShape(c: Config, start: Time, es: seq<TimedEvent>)
    requires Unsegmented(es)
    ensures Shapers(c, start, es) == Timings(Run(c, Init(start), es).yard.train.riders)
    decreases |es|
  {
    if es != [] {
      var before, e := es[..|es| - 1], es[|es| - 1];
      UnsegmentedShape(c, start, before);
      var s := Run(c, Init(start), before);
      var s0 := Ticked(s, e.now);
      if e.event.Submit? {
        SendShapesByRiders(c, s0, e.now, e.event.data);
      } else if e.event.Flush? {
        FlushShapesByRiders(s0, e.now);
      } else if e.event.TimerFires? {
        FlushShapesByRiders(TimerOff(s0), e.now);
      } else {
        QuietShapes(c, s, e, Timings(s.yard.train.riders));
      }
    }
  }

  /** The rules of boarding over the messages on board alone. */
  predicate Shares(c: Config, riders: seq<Rider>, rider: Rider) {
    && (forall r <- riders :: Identify(r.data) != Identify(rider.data))
    && |Cargo(riders)| + |rider.data| <= c.maxMessageSize
    && (forall r <- riders :: rider.arrival + rider.timing.debounce <= Deadline(r))
    && (forall r <- riders :: rider.timing.debounce <= r.timing.retention)
    && (exists r <- riders :: r.timing.debounce <= rider.timing.retention)
  }

  lemma CompatibleShares(c: Config, riders: seq<Rider>, rider: Rider)
    ensures Compatible(c, riders, Timings(riders), rider) <==> Shares(c, riders, rider)
  {
    var ts := Timings(riders);
    forall r | r in riders
      ensures r.timing in ts
    {
      var i :| 0 <= i < |riders| && riders[i] == r;
      assert ts[i] == r.timing;
    }
    forall t | t in ts
      ensures exists r <- riders :: r.timing == t
    {
      var i :| 0 <= i < |ts| && ts[i] == t;
      assert riders[i].timing == t;
    }
  }

  /**
   In every state reached without segmented messages: an accepted message joins those that wait in the
   current train if and only if none of them goes to its method, the joint bytes fit, its debounce time
   passes by everyone's deadline and within everyone's retention time, and its retention time reaches
   the smallest debounce time on board.
   */
  lemma UnsegmentedBoardsIff(c: Config, start: Time, es: seq<TimedEvent>, e: TimedEvent)
    requires Sane(c) && Legal(c, Init(start), es) && Unsegmented(es) && e.event.Submit?
    requires var s := Run(c, Init(start), es); Accepts(c, s, e.event.data, e.event.tp) && FitsMessageSize(c, |e.event.data|)
    ensures var s := Run(c, Init(start), es);
            var s', rider, riders := Step(c, s, e), NewRider(c, s, e.now, e.event.data), s.yard.train.riders;
            && (Joins(s, s', rider) <==> riders == [] || Shares(c, riders, rider))
            && (SendsOff(s, s', rider) <==> riders != [] && !Shares(c, riders, rider))
  {
    BoardsIff(c, start, es, e);
    UnsegmentedShape(c, start, es);
    CompatibleShares(c, Run(c, Init(start), es).yard.train.riders, NewRider(c, Run(c, Init(start), es), e.now, e.event.data));
  }
}
