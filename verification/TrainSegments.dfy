/**
 Segmented messages and the dispatch timer: sending waiting passengers off before a segmented message
 can let the timer release a train before its departure, and in exactly which configurations it can.
 */
module TrainSegments {
  import opened Bytes
  import opened TrainModel
  import opened TrainInvariants
  import opened TrainTiming
  import opened TrainOrder
  import opened TrainDebounce
  import opened Wrappers

  /** Some legal run on which only the timer flushes leads to `s`. */
  ghost predicate Timed(c: Config, s: Endpoint) {
    exists start, es :: Legal(c, Init(start), es) && TimerOnly(es) && s == Run(c, Init(start), es)
  }

  lemma StepTimed(c: Config, s: Endpoint, e: TimedEvent)
    requires Timed(c, s) && Enabled(s, e) && !e.event.Flush?
    ensures Timed(c, Step(c, s, e))
  {
    var start, es :| Legal(c, Init(start), es) && TimerOnly(es) && s == Run(c, Init(start), es);
    assert (es + [e])[..|es|] == es;
    assert Legal(c, Init(start), es + [e]) && TimerOnly(es + [e]);
  }

  // ---------------------------------------------------------------------------
  // A method with both times
  // ---------------------------------------------------------------------------

  /** Some messages fit into a train and some have to be segmented, and the queue is unlimited. */
  ghost predicate Segmenting(c: Config) {
    Sane(c) && 4 <= c.maxMessageSize < UINT32_MAX && c.queueLimit == UINT32_MAX
  }

  ghost predicate HasBothTimes(c: Config, id: Identifier) {
    Carriable(id) && 0 < c.timing(id).debounce && 0 < c.timing(id).retention
  }

  /** No message waits. */
  ghost predicate Vacant(s: Endpoint) {
    s.yard.dispatched == [] && s.yard.train.riders == [] && s.yard.train.passengers == {}
    && s.yard.train.minDebounce == DURATION_MAX && s.yard.train.minRetention == DURATION_MAX && !s.blocked
  }

  /** One message to the method waits, in the current train, until `due`. */
  ghost predicate Waits(c: Config, s: Endpoint, id: Identifier, due: Time) {
    && s.yard.dispatched == [] && |s.yard.train.riders| == 1 && s.yard.train.passengers == {id}
    && s.yard.train.minDebounce == c.timing(id).debounce && s.yard.train.departure == due
    && s.yard.timer == Armed(due) && !s.blocked
  }

  /** So many entries are queued, and the first of them is being written. */
  ghost predicate Writing(s: Endpoint, n: nat) {
    |s.outbox.queue| == n && s.outbox.inflight == (if n > 0 then 1 else 0) && (s.outbox.isSending <==> n > 0)
  }

  lemma Boarded(c: Config, s: Endpoint, id: Identifier, now: Time) returns (s': Endpoint)
    requires Segmenting(c) && HasBothTimes(c, id) && Timed(c, s) && Vacant(s) && s.clock <= now
    ensures Timed(c, s') && Waits(c, s', id, now + c.timing(id).retention) && s'.clock == now
    ensures s'.outbox == s.outbox && s'.lastDeparture == s.lastDeparture && s'.completions == s.completions
  {
    IdentifyTo(id);
    var e := At(now, Submit(To(id), None));
    s' := Step(c, s, e);
    StepTimed(c, s, e);
  }

  /** The timer releases the waiting message when it is due. */
  lemma Left(c: Config, s: Endpoint, id: Identifier, due: Time, n: nat) returns (s': Endpoint)
    requires Timed(c, s) && Waits(c, s, id, due) && s.clock <= due && Writing(s, n)
    ensures Timed(c, s') && Vacant(s') && s'.clock == due && Writing(s', n + 1)
  {
    CargoEmpty(s.yard.train.riders);
    var e := At(due, TimerFires);
    s' := Step(c, s, e);
    StepTimed(c, s, e);
  }

  lemma Wrote(c: Config, s: Endpoint, now: Time, n: nat) returns (s': Endpoint)
    requires Timed(c, s) && s.clock <= now && Writing(s, n) && n > 0
    ensures Timed(c, s') && s'.clock == now && s'.yard == s.yard && s'.blocked == s.blocked
    ensures s'.lastDeparture == Some(now) && s'.completions == s.completions + [now] && Writing(s', n - 1)
  {
    s' := Step(c, s, At(now, WriteDone));
    StepTimed(c, s, At(now, WriteDone));
  }

  /** A message to the method that has one byte too many for a train. */
  function TooLarge(c: Config, id: Identifier): Message
    requires 4 <= c.maxMessageSize < UINT32_MAX && Carriable(id)
  {
    To(id) + seq(c.maxMessageSize - 3, _ => 0)
  }

  /** A message that is too large for a train, cut into segments to the method, is sent. */
  lemma Segmented(c: Config, s: Endpoint, id: Identifier, now: Time) returns (s': Endpoint)
    requires Segmenting(c) && HasBothTimes(c, id) && Timed(c, s) && !s.blocked && s.clock <= now
    ensures Timed(c, s') && s'.clock == now && s'.completions == s.completions
    ensures s'.yard == MakeRoom(s.yard, s.lastDeparture, now, c.timing(id))
  {
    IdentifyTo(id);
    var e := At(now, Submit(TooLarge(c, id), Some(Segmentation([To(id)], 0))));
    s' := Step(c, s, e);
    StepTimed(c, s, e);
  }

  /** A train that is held back after the write at `w` goes next, and the timer goes off too early for it. */
  ghost predicate OffTooEarly(s: Endpoint, w: Time) {
    && s.yard.timer.Armed? && s.yard.timer.at <= s.clock && TakesParked(s.yard) && s.yard.dispatched[0].riders != []
    && s.clock < s.yard.dispatched[0].departure == w + s.yard.dispatched[0].minDebounce
    && w in s.completions
  }

  /** A train that was held back after the write at `w` was released before its departure. */
  ghost predicate LeftTooEarly(s: Endpoint, l: Release, w: Time) {
    && l in s.released && w in s.completions
    && l.train.departure == w + l.train.minDebounce && l.at < l.train.departure
  }

  lemma LeftEarly(c: Config, s: Endpoint, w: Time) returns (s': Endpoint, l: Release)
    requires Timed(c, s) && OffTooEarly(s, w)
    ensures Timed(c, s') && LeftTooEarly(s', l, w)
  {
    CargoEmpty(s.yard.dispatched[0].riders);
    var e := At(s.clock, TimerFires);
    s' := Step(c, s, e);
    StepTimed(c, s, e);
    l := Release(s.yard.dispatched[0], s.clock);
    assert s'.released == s.released + [l];
  }

  /** The first message has left but is not written yet, the second waits until `2 * retention`. */
  lemma OneLeft(c: Config, id: Identifier) returns (s: Endpoint)
    requires Segmenting(c) && HasBothTimes(c, id)
    ensures var r := c.timing(id).retention;
            Timed(c, s) && s.clock == r && Waits(c, s, id, 2 * r) && Writing(s, 1)
  {
    var r := c.timing(id).retention;
    assert Legal(c, Init(0), []) && TimerOnly([]) && Init(0) == Run(c, Init(0), []);
    s := Boarded(c, Init(0), id, 0);
    s := Left(c, s, id, r, 0);
    s := Boarded(c, s, id, r);
  }

  // ---------------------------------------------------------------------------
  // A debounce time within the retention time
  // ---------------------------------------------------------------------------

  /** The write ends right before the segments are sent: the waiting message is postponed, the timer is not. */
  lemma ShortDebounceEarly(c: Config, id: Identifier) returns (s: Endpoint, l: Release)
    requires Segmenting(c) && HasBothTimes(c, id) && c.timing(id).debounce <= c.timing(id).retention
    ensures Timed(c, s) && LeftTooEarly(s, l, 2 * c.timing(id).retention)
  {
    var r, d := c.timing(id).retention, c.timing(id).debounce;
    s := OneLeft(c, id);
    s := Wrote(c, s, 2 * r, 1);
    var y := s.yard;
    s := Segmented(c, s, id, 2 * r);
    MakeRoomParks(y, Some(2 * r), 2 * r, c.timing(id));
    assert s.yard.dispatched == [Scheduled(Lower(y.train, c.timing(id)), Some(2 * r))];
    s, l := LeftEarly(c, s, 2 * r);
  }

  // ---------------------------------------------------------------------------
  // A debounce time above the retention time
  // ---------------------------------------------------------------------------

  /** Two messages have left, the first is written at `2 * retention`, the third waits from then on. */
  lemma TwoLeft(c: Config, id: Identifier) returns (s: Endpoint)
    requires Segmenting(c) && HasBothTimes(c, id)
    ensures var r := c.timing(id).retention;
            && Timed(c, s) && s.clock == 2 * r && Waits(c, s, id, 3 * r) && s.lastDeparture == Some(2 * r)
            && Writing(s, 1) && 2 * r in s.completions
  {
    var r := c.timing(id).retention;
    s := OneLeft(c, id);
    s := Left(c, s, id, 2 * r, 1);
    s := Wrote(c, s, 2 * r, 2);
    s := Boarded(c, s, id, 2 * r);
  }

  /** The third message is parked until its debounce time after the write, the fourth waits until `due`. */
  ghost predicate ThirdParked(c: Config, s: Endpoint, id: Identifier, w: Time, due: Time) {
    && |s.yard.dispatched| == 1 && s.yard.dispatched[0].riders != []
    && s.yard.dispatched[0].departure == w + c.timing(id).debounce
    && s.yard.dispatched[0].minDebounce == c.timing(id).debounce
    && s.yard.train.passengers == {id} && s.yard.train.departure == due
    && s.yard.train.minDebounce == c.timing(id).debounce && s.yard.timer == Armed(due) && !s.blocked
  }

  lemma Displaced(c: Config, s: Endpoint, id: Identifier, w: Time, due: Time) returns (s': Endpoint)
    requires Segmenting(c) && HasBothTimes(c, id) && Timed(c, s) && Waits(c, s, id, due) && s.lastDeparture == Some(w)
    requires s.clock == w && due == w + c.timing(id).retention < w + c.timing(id).debounce
    ensures Timed(c, s') && s'.clock == w && s'.outbox == s.outbox && s'.completions == s.completions
    ensures ThirdParked(c, s', id, w, due)
  {
    IdentifyTo(id);
    var e := At(w, Submit(To(id), None));
    s' := Step(c, s, e);
    StepTimed(c, s, e);
    assert s'.yard.dispatched == [Scheduled(s.yard.train, Some(w))];
  }

  /** Behind the parked message the current train is postponed too: the segments leave only the first as the next to go. */
  lemma SegmentsPostpone(c: Config, s: Endpoint, id: Identifier, w: Time, due: Time) returns (s': Endpoint)
    requires Segmenting(c) && HasBothTimes(c, id) && Timed(c, s) && ThirdParked(c, s, id, w, due) && w in s.completions
    requires due <= s.clock == w + c.timing(id).debounce - 1 && s.lastDeparture == Some(s.clock)
    ensures Timed(c, s') && OffTooEarly(s', w)
  {
    s' := Segmented(c, s, id, s.clock);
    var first, second := s.yard.dispatched[0], Scheduled(Lower(s.yard.train, c.timing(id)), s.lastDeparture);
    assert s.yard.dispatched == [first] && first.departure <= second.departure;
    FileAtTheEnd([first], second);
    assert s'.yard.dispatched == [first, second];
  }

  lemma LongDebounceEarly(c: Config, id: Identifier) returns (s: Endpoint, l: Release)
    requires Segmenting(c) && HasBothTimes(c, id) && c.timing(id).retention < c.timing(id).debounce
    ensures Timed(c, s) && LeftTooEarly(s, l, 2 * c.timing(id).retention)
  {
    var r, d := c.timing(id).retention, c.timing(id).debounce;
    s := TwoLeft(c, id);
    s := Displaced(c, s, id, 2 * r, 3 * r);
    s := Wrote(c, s, 2 * r + d - 1, 1);
    s := SegmentsPostpone(c, s, id, 2 * r, 3 * r);
    s, l := LeftEarly(c, s, 2 * r);
  }

  // ---------------------------------------------------------------------------
  // The exact condition
  // ---------------------------------------------------------------------------

  lemma HarmlessReleasesWhenDue(c: Config, s: Endpoint, l: Release)
    requires Sane(c) && SegmentsHarmless(c) && Timed(c, s) && l in s.released
    ensures l.train.departure <= l.at
  {
    var start, es :| Legal(c, Init(start), es) && TimerOnly(es) && s == Run(c, Init(start), es);
    TimerReleasesWhenDue(c, start, es, l);
  }

  lemma HarmfulReleasesEarly(c: Config) returns (s: Endpoint, l: Release, w: Time)
    requires Sane(c) && c.queueLimit == UINT32_MAX && !SegmentsHarmless(c)
    ensures Timed(c, s) && LeftTooEarly(s, l, w)
  {
    var id :| Carriable(id) && c.timing(id).debounce != 0 && c.timing(id).retention != 0;
    w := 2 * c.timing(id).retention;
    if c.timing(id).debounce <= c.timing(id).retention {
      s, l := ShortDebounceEarly(c, id);
    } else {
      s, l := LongDebounceEarly(c, id);
    }
  }

  /**
   With an unlimited queue: on all runs on which only the timer flushes, segmented messages included, no
   train is released before its departure, if and only if no message is too large, or none fits into a
   train, or no method has both a debounce and a retention time.
   */
  lemma TimerReleasesWhenDueIff(c: Config)
    requires Sane(c) && c.queueLimit == UINT32_MAX
    ensures (forall s, l | Timed(c, s) && l in s.released :: l.train.departure <= l.at) <==> SegmentsHarmless(c)
  {
    if SegmentsHarmless(c) {
      forall s, l | Timed(c, s) && l in s.released
        ensures l.train.departure <= l.at
      {
        HarmlessReleasesWhenDue(c, s, l);
      }
    } else {
      var s, l, w := HarmfulReleasesEarly(c);
      assert Timed(c, s) && l in s.released;
    }
  }

  /** The same condition decides whether a train that is held back after a write always keeps its distance to it. */
  lemma HeldBackSpacedIff(c: Config)
    requires Sane(c) && c.queueLimit == UINT32_MAX
    ensures (forall s, l, w | Timed(c, s) && l in s.released && w in s.completions
                            && l.train.departure == w + l.train.minDebounce ::
               w + l.train.minDebounce <= l.at)
            <==> SegmentsHarmless(c)
  {
    if SegmentsHarmless(c) {
      forall s, l, w | Timed(c, s) && l in s.released && w in s.completions && l.train.departure == w + l.train.minDebounce
        ensures w + l.train.minDebounce <= l.at
      {
        HarmlessReleasesWhenDue(c, s, l);
      }
    } else {
      var s, l, w := HarmfulReleasesEarly(c);
      assert Timed(c, s) && LeftTooEarly(s, l, w);
    }
  }
}
