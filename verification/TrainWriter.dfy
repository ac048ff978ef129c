/**
 The writer of the send queue over whole runs: when a queued entry is being written or sure to be
 resumed, and which steps end that.
 */
module TrainWriter {
  import opened TrainModel
  import TrainInvariants
  import opened Wrappers

  /** A queued entry is being written, or the next connect resumes writing. */
  predicate WriterAlive(s: Endpoint) {
    && (s.outbox.queue != [] ==> s.outbox.isSending || (s.outbox.wasNotConnected && !s.blocked))
    && (s.outbox.isSending ==> s.outbox.inflight > 0)
  }

  /**
   The only write ends well behind a queue that a stop has cleared; or a write is aborted on a live
   connection, which blocks the endpoint and leaves the queue; or a write of a blocked endpoint fails
   and leaves the queue.
   */
  predicate Strands(s: Endpoint, event: Event) {
    match event
    case WriteDone => s.outbox.queue == [] && s.outbox.isSending && s.outbox.inflight == 1
    case WriteFailed(error, connected) =>
      s.outbox.queue != [] &&
      if connected then error == Aborted || (s.blocked && error != NoPermission && error != BrokenPipe) else s.blocked
    case _ => false
  }

  /** A stop, or a write that is aborted on a live connection, blocks the endpoint for good. */
  predicate Blocks(event: Event) {
    event.Stop? || (event.WriteFailed? && event.error == Aborted && event.connected)
  }

  lemma {:induction false} RunsBlockIff(c: Config, start: Time, es: seq<TimedEvent>)
    ensures Run(c, Init(start), es).blocked <==> exists e <- es :: Blocks(e.event)
    decreases |es|
  {
    if es != [] {
      var before, e := es[..|es| - 1], es[|es| - 1];
      RunsBlockIff(c, start, before);
      StepBlocks(c, Run(c, Init(start), before), e);
      assert es == before + [e];
    }
  }

  lemma StepBlocks(c: Config, s: Endpoint, e: TimedEvent)
    ensures Step(c, s, e).blocked <==> s.blocked || Blocks(e.event)
  {
  }

  lemma WriterStepIff(c: Config, s: Endpoint, e: TimedEvent)
    requires WriterAlive(s) && Enabled(s, e)
    ensures WriterAlive(Step(c, s, e)) <==> !Strands(s, e.event)
  {
    TrainInvariants.OutboxStep(c, s, e);
    StepBlocks(c, s, e);
  }

  /** A connect that finds a queue waiting for it starts a write if and only if the endpoint is not blocked. */
  lemma ConnectResumesIff(c: Config, s: Endpoint, e: TimedEvent)
    requires e.event.Connect? && s.outbox.queue != [] && s.outbox.wasNotConnected
    ensures Step(c, s, e).outbox.inflight == s.outbox.inflight + 1 <==> !s.blocked
    ensures Step(c, s, e).outbox.queue == s.outbox.queue
  {
    TrainInvariants.OutboxStep(c, s, e);
  }

  // ---------------------------------------------------------------------------
  // Over whole runs
  // ---------------------------------------------------------------------------

  predicate AliveAfter(c: Config, start: Time, es: seq<TimedEvent>, n: nat) {
    n <= |es| && WriterAlive(Run(c, Init(start), es[..n]))
  }

  predicate StrandsAt(c: Config, start: Time, es: seq<TimedEvent>, n: nat) {
    n < |es| && Strands(Run(c, Init(start), es[..n]), es[n].event)
  }

  lemma {:induction false} EnabledPrefix(c: Config, s: Endpoint, es: seq<TimedEvent>, n: nat)
    requires Legal(c, s, es) && n < |es|
    ensures Enabled(Run(c, s, es[..n]), es[n])
    decreases |es|
  {
    var last := |es| - 1;
    if n < last {
      EnabledPrefix(c, s, es[..last], n);
      assert es[..last][..n] == es[..n];
    }
  }

  lemma StepAliveIff(c: Config, start: Time, es: seq<TimedEvent>, n: nat)
    requires Legal(c, Init(start), es) && n < |es| && AliveAfter(c, start, es, n)
    ensures AliveAfter(c, start, es, n + 1) <==> !StrandsAt(c, start, es, n)
  {
    EnabledPrefix(c, Init(start), es, n);
    assert es[..n + 1][..n] == es[..n];
    WriterStepIff(c, Run(c, Init(start), es[..n]), es[n]);
  }

  lemma {:induction false} UnstrandedAlive(c: Config, start: Time, es: seq<TimedEvent>, n: nat)
    requires Legal(c, Init(start), es) && n <= |es| && forall m | 0 <= m < n :: !StrandsAt(c, start, es, m)
    ensures AliveAfter(c, start, es, n)
    decreases n
  {
    if n == 0 {
      assert es[..0] == [];
    } else {
      UnstrandedAlive(c, start, es, n - 1);
      StepAliveIff(c, start, es, n - 1);
    }
  }

  /** Through a whole run no queued entry is forgotten by the writer, if and only if no step of the run strands it. */
  lemma RunsKeepWriterAliveIff(c: Config, start: Time, es: seq<TimedEvent>)
    requires Legal(c, Init(start), es)
    ensures (forall n | 0 <= n <= |es| :: AliveAfter(c, start, es, n))
            <==> forall n | 0 <= n < |es| :: !StrandsAt(c, start, es, n)
  {
    if forall n | 0 <= n < |es| :: !StrandsAt(c, start, es, n) {
      forall n | 0 <= n <= |es|
        ensures AliveAfter(c, start, es, n)
      {
        UnstrandedAlive(c, start, es, n);
      }
    }
    if forall n | 0 <= n <= |es| :: AliveAfter(c, start, es, n) {
      forall n | 0 <= n < |es|
        ensures !StrandsAt(c, start, es, n)
      {
        assert AliveAfter(c, start, es, n) && AliveAfter(c, start, es, n + 1);
        StepAliveIff(c, start, es, n);
      }
    }
  }

  /** The queue waits for a connect after a failed write or a restart, until a connect of an endpoint that is not blocked. */
  predicate WaitsBy(es: seq<TimedEvent>) {
    if es == [] then false else
    var before := es[..|es| - 1];
    match es[|es| - 1].event
    case WriteFailed(_, _) => true
    case Restart => true
    case Connect => WaitsBy(before) && exists e <- before :: Blocks(e.event)
    case _ => WaitsBy(before)
  }

  lemma StepWaits(c: Config, s: Endpoint, e: TimedEvent)
    ensures Step(c, s, e).outbox.wasNotConnected ==
            (e.event.WriteFailed? || e.event.Restart? || (s.outbox.wasNotConnected && (e.event.Connect? ==> s.blocked)))
  {
    TrainInvariants.OutboxStep(c, s, e);
  }

  lemma {:induction false} RunsWaitIff(c: Config, start: Time, es: seq<TimedEvent>)
    ensures Run(c, Init(start), es).outbox.wasNotConnected <==> WaitsBy(es)
    decreases |es|
  {
    if es != [] {
      var before := es[..|es| - 1];
      RunsWaitIff(c, start, before);
      RunsBlockIff(c, start, before);
      StepWaits(c, Run(c, Init(start), before), es[|es| - 1]);
    }
  }

  /** A write is noted, and its time remembered, exactly when an entry has been sent. */
  lemma {:induction false} RunsNoteWrites(c: Config, start: Time, es: seq<TimedEvent>)
    ensures var s := Run(c, Init(start), es);
            |s.completions| == |s.outbox.sent| && (s.lastDeparture.Some? <==> s.outbox.sent != [])
    decreases |es|
  {
    if es != [] {
      RunsNoteWrites(c, start, es[..|es| - 1]);
      StepNotesWrites(c, Run(c, Init(start), es[..|es| - 1]), es[|es| - 1]);
    }
  }

  lemma StepNotesWrites(c: Config, s: Endpoint, e: TimedEvent)
    ensures var s' := Step(c, s, e);
            if s'.outbox.sent == s.outbox.sent then s'.completions == s.completions && s'.lastDeparture == s.lastDeparture
            else |s'.outbox.sent| == |s.outbox.sent| + 1 && s'.completions == s.completions + [e.now]
                 && s'.lastDeparture == Some(e.now)
  {
    if e.event.WriteDone? {
      assert s.outbox.queue != [] ==> |s.outbox.sent + [s.outbox.queue[0]]| == |s.outbox.sent| + 1;
    } else {
      TrainInvariants.OutboxStep(c, s, e);
    }
  }

  /** A writer at work has a write under way and something to write, and a queue without a writer waits for a connect. */
  predicate Busy(o: Outbox) {
    && (o.isSending ==> o.queue != [] && o.inflight > 0)
    && (o.queue != [] ==> o.isSending || o.wasNotConnected)
  }

  lemma StepKeepsBusy(c: Config, s: Endpoint, e: TimedEvent)
    requires Busy(s.outbox) && Enabled(s, e) && !e.event.Stop?
    ensures Busy(Step(c, s, e).outbox)
  {
    TrainInvariants.OutboxStep(c, s, e);
  }

  /**
   Until the endpoint is stopped, through any failures, connects and restarts, the writer is busy where
   it has to be, and no queued entry is forgotten unless an aborted write has blocked the endpoint.
   */
  lemma {:induction false} RunsKeepWriterBusy(c: Config, start: Time, es: seq<TimedEvent>)
    requires Legal(c, Init(start), es) && forall e <- es :: !e.event.Stop?
    ensures var s := Run(c, Init(start), es);
            Busy(s.outbox) && (!s.blocked ==> WriterAlive(s))
    decreases |es|
  {
    if es != [] {
      RunsKeepWriterBusy(c, start, es[..|es| - 1]);
      StepKeepsBusy(c, Run(c, Init(start), es[..|es| - 1]), es[|es| - 1]);
    }
  }

  // ---------------------------------------------------------------------------
  // A blocked endpoint
  // ---------------------------------------------------------------------------

  /** The endpoint is blocked, no write is under way, and no message waits in a train. */
  predicate Silent(s: Endpoint) {
    && s.blocked && !s.outbox.isSending && s.outbox.inflight == 0
    && s.yard.dispatched == [] && s.yard.train.riders == []
  }

  lemma StepStaysSilent(c: Config, s: Endpoint, e: TimedEvent)
    requires Silent(s) && Enabled(s, e)
    ensures Silent(Step(c, s, e)) && Step(c, s, e).outbox.sent == s.outbox.sent
    ensures !e.event.Stop? && !e.event.Restart? ==> Step(c, s, e).outbox.queue == s.outbox.queue
  {
  }

  /** A silent endpoint never writes again, and keeps what it has queued until a stop or a restart drops it. */
  lemma {:induction false} SilentForever(c: Config, s: Endpoint, es: seq<TimedEvent>)
    requires Silent(s) && Legal(c, s, es)
    ensures var t := Run(c, s, es);
            && Silent(t) && t.outbox.sent == s.outbox.sent
            && ((forall e <- es :: !e.event.Stop? && !e.event.Restart?) ==> t.outbox.queue == s.outbox.queue)
    decreases |es|
  {
    if es != [] {
      SilentForever(c, s, es[..|es| - 1]);
      StepStaysSilent(c, Run(c, s, es[..|es| - 1]), es[|es| - 1]);
    }
  }

  lemma LegalMore(c: Config, s: Endpoint, es: seq<TimedEvent>, e: TimedEvent) returns (more: seq<TimedEvent>)
    requires Legal(c, s, es) && Enabled(Run(c, s, es), e)
    ensures Legal(c, s, more) && Run(c, s, more) == Step(c, Run(c, s, es), e)
  {
    more := es + [e];
    assert more[..|es|] == es;
  }

  /** The first message boards the empty train and is flushed: it is being written. */
  lemma FirstFlushed(c: Config, start: Time, data: Message)
    requires Accepts(c, Init(start), data, None)
    ensures var s := FlushTrains(Send(c, Init(start), start, data, None), start);
            && !s.blocked && s.outbox.isSending && s.outbox.inflight == 1 && |s.outbox.queue| == 1
            && s.yard.dispatched == [] && s.yard.train.riders == []
  {
    var rider := NewRider(c, Init(start), start, data);
    CargoEmpty([rider]);
  }

  /** In every configuration that accepts a message at all, an aborted write leaves a silent endpoint with a queued entry. */
  lemma AbortSilences(c: Config, start: Time, data: Message) returns (es: seq<TimedEvent>)
    requires Accepts(c, Init(start), data, None)
    ensures Legal(c, Init(start), es) && Silent(Run(c, Init(start), es)) && Run(c, Init(start), es).outbox.queue != []
  {
    FirstFlushed(c, start, data);
    es := LegalMore(c, Init(start), [], At(start, Submit(data, None)));
    es := LegalMore(c, Init(start), es, At(start, Event.Flush));
    es := LegalMore(c, Init(start), es, At(start, WriteFailed(Aborted, true)));
  }
}
