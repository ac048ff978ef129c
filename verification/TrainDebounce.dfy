/**
 What debouncing guarantees: a train that is parked leaves no sooner than the debounce time of
 its messages after every write that had finished when it was parked.
 */
module TrainDebounce {
  import opened Bytes
  import opened TrainModel
  import opened TrainInvariants
  import opened TrainTiming
  import opened TrainOrder
  import opened Wrappers

  // ---------------------------------------------------------------------------
  // Parking
  // ---------------------------------------------------------------------------

  /** Writes finish in the order of time, and the last one is remembered. */
  ghost predicate WritesOrdered(s: Endpoint) {
    && LastOf(s.lastDeparture, s.completions)
    && (forall i, j :: 0 <= i < j < |s.completions| ==> s.completions[i] <= s.completions[j])
    && forall w :: w in s.completions ==> w <= s.clock
  }

  lemma {:induction false} RunsOrderWrites(c: Config, start: Time, es: seq<TimedEvent>)
    requires Legal(c, Init(start), es)
    ensures WritesOrdered(Run(c, Init(start), es))
  {
    if es != [] {
      var s, e := Run(c, Init(start), es[..|es| - 1]), es[|es| - 1];
      RunsOrderWrites(c, start, es[..|es| - 1]);
      StepCompletes(c, s, e);
      forall i | 0 <= i < |s.completions|
        ensures s.completions[i] <= e.now
      {
        assert s.completions[i] in s.completions;
      }
    }
  }

  /** What a step adds to the finished writes. */
  lemma StepCompletes(c: Config, s: Endpoint, e: TimedEvent)
    ensures var s' := Step(c, s, e);
            && s'.clock == e.now
            && (|| (s'.completions == s.completions && s'.lastDeparture == s.lastDeparture)
                || (s'.completions == s.completions + [e.now] && s'.lastDeparture == Some(e.now)))
  {
  }

  /** The step from `s` to `s'` parks train `t`. */
  ghost predicate Parks(s: Endpoint, s': Endpoint, t: Train) {
    t in s'.yard.dispatched && t !in s.yard.dispatched
  }

  /** No sooner than its minimal debounce time after each of the writes. */
  ghost predicate Debounced(t: Train, writes: seq<Time>) {
    forall w :: w in writes ==> w + t.minDebounce <= t.departure
  }

  lemma ScheduledDebounced(s: Endpoint, t: Train)
    requires WritesOrdered(s)
    ensures Debounced(Scheduled(t, s.lastDeparture), s.completions)
  {
    forall w | w in s.completions
      ensures w <= s.lastDeparture.value
    {
      var i :| 0 <= i < |s.completions| && s.completions[i] == w;
    }
  }

  /** A step parks at most the current train, which carries messages and is postponed. */
  lemma StepParks(c: Config, s: Endpoint, e: TimedEvent, t: Train) returns (u: Train)
    requires ShapeOk(c, s.yard) && CurrentWindow(s.yard.train) && Parks(s, Step(c, s, e), t)
    ensures t == Scheduled(u, s.lastDeparture) && IsEarliest(u.riders, u.departure)
  {
    YardStep(c, s, e);
    PassengersIffRiders(c, s.yard.train);
    u := s.yard.train;
    FileMembers(s.yard.dispatched, Scheduled(u, s.lastDeparture));
    var tp := e.event.tp;
    if t != Scheduled(u, s.lastDeparture) {
      u := Lower(u, c.timing(Identify(tp.value.segments[0])));
      FileMembers(s.yard.dispatched, Scheduled(u, s.lastDeparture));
    }
  }

  /** When a train parked after the given writes departs: at the earliest deadline on board, or, if that is
      later, its minimal debounce time after the last write. */
  ghost predicate DepartsAfter(t: Train, writes: seq<Time>) {
    exists d :: IsEarliest(t.riders, d)
                && t.departure == if writes == [] then d else Max(d, writes[|writes| - 1] + t.minDebounce)
  }

  /** In every run, segmented or not, this is the departure of every train that is parked; so it departs no
      sooner than its minimal debounce time after each write that had finished by then. */
  lemma RunsDebounceParkedTrains(c: Config, start: Time, es: seq<TimedEvent>, n: nat, t: Train)
    requires Sane(c) && Legal(c, Init(start), es) && n < |es|
    requires Parks(Run(c, Init(start), es[..n]), Run(c, Init(start), es[..n + 1]), t)
    ensures DepartsAfter(t, Run(c, Init(start), es[..n]).completions)
    ensures Debounced(t, Run(c, Init(start), es[..n]).completions)
  {
    LegalPrefix(c, start, es, n);
    var s := Run(c, Init(start), es[..n]);
    assert es[..n + 1][..n] == es[..n];
    RunsOrderWrites(c, start, es[..n]);
    RunsConserve(c, start, es[..n]);
    RunsWakeUp(c, start, es[..n]);
    var u := StepParks(c, s, es[n], t);
    ScheduledDebounced(s, u);
    assert IsEarliest(t.riders, u.departure);
  }

  /** Every train that waits in the line was parked by some step of the run. */
  lemma {:induction false} ParkedBefore(c: Config, start: Time, es: seq<TimedEvent>, t: Train) returns (n: nat)
    requires t in Run(c, Init(start), es).yard.dispatched
    ensures n < |es| && Parks(Run(c, Init(start), es[..n]), Run(c, Init(start), es[..n + 1]), t)
    decreases |es|
  {
    n := |es| - 1;
    var before := es[..n];
    if t in Run(c, Init(start), before).yard.dispatched {
      n := ParkedBefore(c, start, before, t);
      assert before[..n] == es[..n] && before[..n + 1] == es[..n + 1];
    } else {
      assert es[..n + 1] == es;
    }
  }

  lemma {:induction false} LegalPrefix(c: Config, start: Time, es: seq<TimedEvent>, n: nat)
    requires Legal(c, Init(start), es) && n <= |es|
    ensures Legal(c, Init(start), es[..n])
    decreases |es|
  {
    if n == |es| {
      assert es[..n] == es;
    } else {
      LegalPrefix(c, start, es[..|es| - 1], n);
      assert es[..|es| - 1][..n] == es[..n];
    }
  }

  // ---------------------------------------------------------------------------
  // The minimal debounce time
  // ---------------------------------------------------------------------------

  /** The minimal debounce time is that of some message on board, and of no message less. */
  ghost predicate DebounceOf(t: Train) {
    t.riders != [] ==>
      && (exists r :: r in t.riders && t.minDebounce == r.timing.debounce)
      && forall r :: r in t.riders ==> t.minDebounce <= r.timing.debounce
  }

  /** An empty train has no minimum yet. */
  ghost predicate MinimaExact(y: Yard) {
    && DebounceOf(y.train) && (y.train.riders == [] ==> y.train.minDebounce == DURATION_MAX)
    && forall t :: t in y.dispatched ==> DebounceOf(t)
  }

  lemma BoardKeepsDebounce(t: Train, rider: Rider)
    requires DebounceOf(t) && (t.riders == [] ==> t.minDebounce == DURATION_MAX) && rider.timing.debounce < DURATION_MAX
    ensures DebounceOf(Board(t, rider))
  {
    var t' := Board(t, rider);
    assert forall r :: r in t'.riders <==> r == rider || r in t.riders;
    assert rider in t'.riders;
  }

  lemma AdmitKeepsMinima(c: Config, y: Yard, lastDeparture: Option<Time>, rider: Rider)
    requires MinimaExact(y) && rider.timing.debounce < DURATION_MAX
    ensures MinimaExact(Admit(c, y, lastDeparture, rider))
  {
    if MustDepart(c, y.train, rider) {
      BoardKeepsDebounce(EmptyTrain(rider.arrival), rider);
      FileMembers(y.dispatched, Scheduled(y.train, lastDeparture));
      assert DebounceOf(Scheduled(y.train, lastDeparture));
    } else {
      BoardKeepsDebounce(y.train, rider);
    }
  }

  lemma {:induction false} RunsKeepMinima(c: Config, start: Time, es: seq<TimedEvent>)
    requires Sane(c) && Legal(c, Init(start), es) && Unsegmented(es)
    ensures MinimaExact(Run(c, Init(start), es).yard)
  {
    if es != [] {
      var s, e := Run(c, Init(start), es[..|es| - 1]), es[|es| - 1];
      RunsKeepMinima(c, start, es[..|es| - 1]);
      YardStep(c, s, e);
      if e.event.Submit? {
        AdmitKeepsMinima(c, s.yard, s.lastDeparture, NewRider(c, s, e.now, e.event.data));
      }
    }
  }

  // ---------------------------------------------------------------------------
  // Spacing
  // ---------------------------------------------------------------------------

  ghost predicate TimerOnly(es: seq<TimedEvent>) {
    forall e :: e in es ==> !e.event.Flush?
  }

  /** Where only the timer flushes, and segmented messages are absent or harmless, no train is released before its departure. */
  lemma {:induction false} TimerReleasesWhenDue(c: Config, start: Time, es: seq<TimedEvent>, l: Release)
    requires Sane(c) && Legal(c, Init(start), es) && TimerOnly(es) && (Unsegmented(es) || SegmentsHarmless(c))
    requires l in Run(c, Init(start), es).released
    ensures l.train.departure <= l.at
  {
    if es != [] {
      var before, e := es[..|es| - 1], es[|es| - 1];
      var s := Run(c, Init(start), before);
      StepReleases(c, s, e);
      RunsReleaseInTime(c, start, before, e.now);
      if l in s.released {
        TimerReleasesWhenDue(c, start, before, l);
      }
    }
  }

  /**
   The spacing that debouncing gives, in every run in which only the timer flushes and segmented messages
   are absent or harmless: a train that is parked after a write has finished enters the queue no sooner
   than that write plus its minimal debounce time, which, without segmented messages, is the smallest of
   its messages.
   */
  lemma ParkedTrainsAreSpaced(c: Config, start: Time, es: seq<TimedEvent>, n: nat, l: Release, w: Time)
    requires Sane(c) && Legal(c, Init(start), es) && TimerOnly(es) && (Unsegmented(es) || SegmentsHarmless(c)) && n < |es|
    requires Parks(Run(c, Init(start), es[..n]), Run(c, Init(start), es[..n + 1]), l.train)
    requires w in Run(c, Init(start), es[..n]).completions && l in Run(c, Init(start), es).released
    ensures w + l.train.minDebounce <= l.at
    ensures Unsegmented(es) && l.train.riders != [] ==> exists r :: r in l.train.riders && w + r.timing.debounce <= l.at
  {
    RunsDebounceParkedTrains(c, start, es, n, l.train);
    TimerReleasesWhenDue(c, start, es, l);
    LegalPrefix(c, start, es, n + 1);
    if Unsegmented(es) {
      assert Unsegmented(es[..n + 1]);
      RunsKeepMinima(c, start, es[..n + 1]);
    }
  }

  /** A flush that is asked for does not keep the distance: the parked train leaves right after the write. */
  lemma AskedFlushIsEarly(c: Config, id: Identifier) returns (s: Endpoint, l: Release)
    requires Sane(c) && Roomy(c) && Carriable(id) && 0 < c.timing(id).debounce <= c.timing(id).retention
    ensures Reachable(c, s) && l in s.released && l.at == c.timing(id).retention && l.train.riders != []
    ensures s.lastDeparture == Some(l.at) && l.at + c.timing(id).debounce <= l.train.departure
  {
    var s1 := FirstWritten(c, id);
    var s2 := Second(c, s1, id);
    var e := At(s2.clock, Event.Flush);
    s := Step(c, s2, e);
    StepReachable(c, s2, e);
    var t := s2.yard.dispatched[0];
    CargoEmpty(t.riders);
    l := Release(t, s2.clock);
    assert s.released == s2.released + [l];
  }
}
