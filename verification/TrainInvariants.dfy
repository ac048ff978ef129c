/**
 What every step of a client endpoint keeps, over every legal run: the shape of trains and of
 the parked line, conservation of messages, and the accounting of the queue.
 */
module TrainInvariants {
  import opened Bytes
  import opened TrainModel
  import opened Wrappers

  // ---------------------------------------------------------------------------
  // Trains and the parked line
  // ---------------------------------------------------------------------------

  ghost function Identifiers(riders: seq<Rider>): set<Identifier> {
    set r | r in riders :: Identify(r.data)
  }

  /** One message per identifier, the passenger list names exactly those, and the bytes fit. */
  ghost predicate WellFormed(c: Config, t: Train) {
    && t.passengers == Identifiers(t.riders)
    && (forall i, j :: 0 <= i < j < |t.riders| ==> Identify(t.riders[i].data) != Identify(t.riders[j].data))
    && |Cargo(t.riders)| <= c.maxMessageSize
  }

  ghost predicate Sorted(line: seq<Train>) {
    forall i, j :: 0 <= i < j < |line| ==> line[i].departure <= line[j].departure
  }

  ghost predicate ShapeOk(c: Config, y: Yard) {
    && WellFormed(c, y.train)
    && Sorted(y.dispatched)
    && forall t :: t in y.dispatched ==> WellFormed(c, t) && t.riders != []
  }

  lemma PassengersIffRiders(c: Config, t: Train)
    requires WellFormed(c, t)
    ensures t.passengers == {} <==> t.riders == []
    ensures Cargo(t.riders) == [] <==> t.riders == []
  {
    CargoEmpty(t.riders);
    if t.riders != [] {
      assert Identify(t.riders[0].data) in t.passengers;
    }
  }

  lemma FileMembers(line: seq<Train>, t: Train)
    ensures forall u :: u in File(line, t) <==> u == t || u in line
  {
    var k := Slot(Departures(line), t.departure);
    assert line == line[..k] + line[k..];
  }

  lemma FileKeepsSorted(line: seq<Train>, t: Train)
    requires Sorted(line)
    ensures Sorted(File(line, t))
    ensures forall u :: u in File(line, t) <==> u == t || u in line
  {
    FileMembers(line, t);
    var k, line' := Slot(Departures(line), t.departure), File(line, t);
    SlotBounds(Departures(line), t.departure);
    forall i, j | 0 <= i < j < |line'| ensures line'[i].departure <= line'[j].departure {
      assert line'[i] == if i < k then line[i] else if i == k then t else line[i - 1];
      assert line'[j] == if j < k then line[j] else if j == k then t else line[j - 1];
      assert i < k ==> Departures(line)[i] <= t.departure;
      assert k < |line| ==> t.departure < Departures(line)[k];
    }
  }

  lemma BoardKeepsWellFormed(c: Config, t: Train, rider: Rider)
    requires Sane(c) && WellFormed(c, t)
    requires FitsMessageSize(c, |rider.data|)
    requires !MustDepart(c, t, rider)
    ensures WellFormed(c, Board(t, rider))
  {
    CargoAppend(t.riders, rider);
    PassengersIffRiders(c, t);
    var t' := Board(t, rider);
    assert t'.riders == t.riders + [rider];
    assert t'.passengers == Identifiers(t'.riders);
    assert forall r :: r in t.riders ==> Identify(r.data) in t.passengers;
  }

  lemma ScheduleKeepsShape(c: Config, y: Yard, lastDeparture: Option<Time>, successor: Train)
    requires ShapeOk(c, y) && y.train.riders != []
    requires WellFormed(c, successor)
    ensures ShapeOk(c, Schedule(y, lastDeparture, successor))
  {
    FileKeepsSorted(y.dispatched, Scheduled(y.train, lastDeparture));
  }

  lemma AdmitKeepsShape(c: Config, y: Yard, lastDeparture: Option<Time>, rider: Rider)
    requires Sane(c) && ShapeOk(c, y) && FitsMessageSize(c, |rider.data|)
    ensures ShapeOk(c, Admit(c, y, lastDeparture, rider))
  {
    PassengersIffRiders(c, y.train);
    if MustDepart(c, y.train, rider) {
      ScheduleKeepsShape(c, y, lastDeparture, EmptyTrain(rider.arrival));
      BoardKeepsWellFormed(c, EmptyTrain(rider.arrival), rider);
    } else {
      BoardKeepsWellFormed(c, y.train, rider);
    }
  }

  lemma MakeRoomKeepsShape(c: Config, y: Yard, lastDeparture: Option<Time>, now: Time, timing: Timing)
    requires ShapeOk(c, y)
    ensures ShapeOk(c, MakeRoom(y, lastDeparture, now, timing))
  {
    PassengersIffRiders(c, y.train);
    if y.train.passengers != {} {
      var successor := EmptyTrain(now).(departure := now + timing.retention);
      ScheduleKeepsShape(c, y.(train := Lower(y.train, timing)), lastDeparture, successor);
    }
  }

  lemma FlushKeepsShape(c: Config, y: Yard, now: Time)
    requires ShapeOk(c, y)
    ensures ShapeOk(c, FlushYard(y, now).yard)
  {
  }

  // ---------------------------------------------------------------------------
  // Conservation and accounting
  // ---------------------------------------------------------------------------

  /**
   Nothing is lost or invented: the accepted messages are exactly those that wait in the
   current train, in parked trains, or have entered the queue. Tickets count acceptance.
   */
  ghost predicate Balanced(accepted: seq<Rider>, waiting: seq<Rider>, entered: seq<Rider>) {
    && multiset(accepted) == multiset(waiting) + multiset(entered)
    && forall i :: 0 <= i < |accepted| ==> accepted[i].ticket == i
  }

  ghost predicate Conserved(s: Endpoint) {
    Balanced(s.accepted, Waiting(s.yard), s.outbox.entered)
  }

  ghost predicate Accounted(o: Outbox) {
    o.queueSize == QueueBytes(o.queue)
  }

  lemma ScheduleConserves(y: Yard, lastDeparture: Option<Time>, successor: Train)
    requires successor.riders == []
    ensures multiset(Waiting(Schedule(y, lastDeparture, successor))) == multiset(Waiting(y))
  {
    var line, t := y.dispatched, Scheduled(y.train, lastDeparture);
    var k := Slot(Departures(line), t.departure);
    assert line == line[..k] + line[k..];
    AboardConcat(line[..k], line[k..]);
    AboardConcat(line[..k] + [t], line[k..]);
    AboardConcat(line[..k], [t]);
    assert Aboard([t]) == t.riders + Aboard([t][1..]) == t.riders;
  }

  lemma AdmitConserves(c: Config, y: Yard, lastDeparture: Option<Time>, rider: Rider)
    ensures multiset(Waiting(Admit(c, y, lastDeparture, rider))) == multiset(Waiting(y)) + multiset{rider}
  {
    var ready := y;
    if MustDepart(c, y.train, rider) {
      ready := Schedule(y, lastDeparture, EmptyTrain(rider.arrival));
      ScheduleConserves(y, lastDeparture, EmptyTrain(rider.arrival));
    }
    assert Waiting(Admit(c, y, lastDeparture, rider)) == Waiting(ready) + [rider];
  }

  lemma MakeRoomConserves(y: Yard, lastDeparture: Option<Time>, now: Time, timing: Timing)
    ensures multiset(Waiting(MakeRoom(y, lastDeparture, now, timing))) == multiset(Waiting(y))
  {
    var lowered := y.(train := Lower(y.train, timing));
    assert Waiting(lowered) == Waiting(y);
    if y.train.passengers != {} {
      ScheduleConserves(lowered, lastDeparture, EmptyTrain(now).(departure := now + timing.retention));
    }
  }

  ghost function Departing(f: Flushed): seq<Rider> {
    if f.train.Some? then f.train.value.riders else []
  }

  lemma FlushParked(y: Yard, now: Time)
    requires TakesParked(y)
    ensures var f := FlushYard(y, now); Waiting(y) == Departing(f) + Waiting(f.yard)
  {
    CargoEmpty(y.dispatched[0].riders);
    var rest := y.(dispatched := y.dispatched[1..]);
    assert Waiting(y) == y.dispatched[0].riders + Waiting(rest);
  }

  lemma FlushCurrent(y: Yard, now: Time)
    requires !TakesParked(y)
    ensures var f := FlushYard(y, now); Waiting(y) == Waiting(f.yard) + Departing(f)
  {
    CargoEmpty(y.train.riders);
  }

  lemma FlushYardConserves(y: Yard, now: Time)
    ensures var f := FlushYard(y, now); multiset(Waiting(y)) == multiset(Waiting(f.yard)) + multiset(Departing(f))
  {
    if TakesParked(y) {
      FlushParked(y, now);
    } else {
      FlushCurrent(y, now);
    }
  }

  lemma SendSegmentsConserves(c: Config, s: Endpoint, now: Time, tp: Segmentation)
    requires Conserved(s)
    ensures Conserved(SendSegments(c, s, now, tp))
  {
    if tp.segments != [] {
      var timing := c.timing(Identify(tp.segments[0]));
      var riders := SegmentRiders(|s.accepted|, now, timing, tp.segments);
      MakeRoomConserves(s.yard, s.lastDeparture, now, timing);
      QueuedSingles(riders, tp.separation);
      var entered, waiting := s.outbox.entered + riders, Waiting(MakeRoom(s.yard, s.lastDeparture, now, timing));
      assert Enqueue(s.outbox, Singles(riders, tp.separation)).entered == entered;
      assert Balanced(s.accepted + riders, waiting, entered);
    }
  }

  lemma AdmitBalances(c: Config, s: Endpoint, rider: Rider)
    requires Conserved(s) && rider.ticket == |s.accepted|
    ensures Conserved(s.(yard := Admit(c, s.yard, s.lastDeparture, rider), accepted := s.accepted + [rider]))
  {
    AdmitConserves(c, s.yard, s.lastDeparture, rider);
    var waiting := Waiting(Admit(c, s.yard, s.lastDeparture, rider));
    assert Balanced(s.accepted + [rider], waiting, s.outbox.entered);
  }

  lemma SendConserves(c: Config, s: Endpoint, now: Time, data: Message, tp: Option<Segmentation>)
    requires Conserved(s)
    ensures Conserved(Send(c, s, now, data, tp))
  {
    if Accepts(c, s, data, tp) {
      if FitsMessageSize(c, |data|) {
        AdmitBalances(c, s, NewRider(c, s, now, data));
      } else {
        SendSegmentsConserves(c, s, now, tp.value);
      }
    }
  }

  lemma FlushEnters(s: Endpoint, now: Time)
    ensures var s' := FlushTrains(s, now);
            && s'.yard == FlushYard(s.yard, now).yard
            && s'.outbox.entered == s.outbox.entered + Departing(FlushYard(s.yard, now))
            && s'.accepted == s.accepted
  {
    var f := FlushYard(s.yard, now);
    if f.train.Some? {
      QueuedOne(Entry(f.train.value.riders, 0));
    }
  }

  lemma FlushConserves(s: Endpoint, now: Time)
    requires Conserved(s)
    ensures Conserved(FlushTrains(s, now))
  {
    FlushYardConserves(s.yard, now);
    FlushEnters(s, now);
  }

  /** Conservation is kept by every step, failures, stops and restarts included. */
  lemma StepConserves(c: Config, s: Endpoint, e: TimedEvent)
    requires Conserved(s)
    ensures Conserved(Step(c, s, e))
  {
    var s0 := s.(clock := e.now);
    match e.event
    case Submit(data, tp) => SendConserves(c, s0, e.now, data, tp);
    case Flush => FlushConserves(s0, e.now);
    case TimerFires => FlushConserves(TimerOff(s0), e.now);
    case _ =>
      var s' := Step(c, s, e);
      assert s'.yard == s.yard && s'.accepted == s.accepted && s'.outbox.entered == s.outbox.entered;
  }

  /** What a step does to the outbox, whatever the trains do. */
  lemma OutboxStep(c: Config, s: Endpoint, e: TimedEvent)
    ensures var o := Step(c, s, e).outbox;
            match e.event
            case WriteDone => o == Complete(s.outbox)
            case WriteFailed(error, connected) => o == Fail(s.outbox, DropsQueue(s.blocked, error, connected))
            case Connect => o == if s.blocked then s.outbox else Resume(s.outbox)
            case Stop => o == ClearQueue(s.outbox)
            case Restart => o == DropAll(s.outbox)
            case _ => o == s.outbox || exists entries :: entries != [] && o == Enqueue(s.outbox, entries)
  {
  }

  /** What a step does to the trains, whatever the outbox does. */
  lemma YardStep(c: Config, s: Endpoint, e: TimedEvent)
    ensures var y := Step(c, s, e).yard;
            match e.event
            case Submit(data, tp) =>
              || y == s.yard
              || (FitsMessageSize(c, |data|) && y == Admit(c, s.yard, s.lastDeparture, NewRider(c, s, e.now, data)))
              || (!FitsMessageSize(c, |data|) && tp.Some? && tp.value.segments != []
                  && y == MakeRoom(s.yard, s.lastDeparture, e.now, c.timing(Identify(tp.value.segments[0]))))
            case Flush => y == FlushYard(s.yard, e.now).yard
            case TimerFires => y == FlushYard(s.yard.(timer := Idle), e.now).yard
            case _ => y == s.yard
    ensures Step(c, s, e).clock == e.now
  {
  }

  /** Train well-formedness: one step keeps the shape of all trains and of the parked line. */
  lemma StepKeepsShape(c: Config, s: Endpoint, e: TimedEvent)
    requires Sane(c) && ShapeOk(c, s.yard)
    ensures ShapeOk(c, Step(c, s, e).yard)
  {
    YardStep(c, s, e);
    match e.event
    case Submit(data, tp) =>
      if FitsMessageSize(c, |data|) {
        AdmitKeepsShape(c, s.yard, s.lastDeparture, NewRider(c, s, e.now, data));
      }
      if tp.Some? && tp.value.segments != [] {
        MakeRoomKeepsShape(c, s.yard, s.lastDeparture, e.now, c.timing(Identify(tp.value.segments[0])));
      }
    case Flush => FlushKeepsShape(c, s.yard, e.now);
    case TimerFires => FlushKeepsShape(c, s.yard.(timer := Idle), e.now);
    case _ =>
  }

  /** The queue size counter equals the bytes queued after every step, failures, stops and restarts included. */
  lemma StepAccounts(c: Config, s: Endpoint, e: TimedEvent)
    requires Accounted(s.outbox)
    ensures Accounted(Step(c, s, e).outbox)
  {
    OutboxStep(c, s, e);
    var o := Step(c, s, e).outbox;
    if (e.event.Submit? || e.event.Flush? || e.event.TimerFires?) && o != s.outbox {
      var entries :| entries != [] && o == Enqueue(s.outbox, entries);
      QueuedConcat(s.outbox.queue, entries);
    }
  }

  /** A step that drops what is queued: a stop, a restart, a write that fails on a live connection for lack of
      permission, or one that finds its pipe broken while the endpoint is blocked. */
  predicate Drops(s: Endpoint, event: Event) {
    match event
    case Stop => true
    case Restart => true
    case WriteFailed(error, connected) => connected && (error == NoPermission || (error == BrokenPipe && s.blocked))
    case _ => false
  }

  ghost predicate AllEntriesKept(o: Outbox) {
    o.entered == Queued(o.sent) + Queued(o.queue)
  }

  lemma EnqueueKeepsEntries(o: Outbox, entries: seq<Entry>)
    requires AllEntriesKept(o)
    ensures AllEntriesKept(Enqueue(o, entries))
  {
    var sent, queued, added := Queued(o.sent), Queued(o.queue), Queued(entries);
    assert Queued(o.queue + entries) == queued + added by {
      QueuedConcat(o.queue, entries);
    }
    Regroup(sent, queued, added);
    PushFields(o, entries);
  }

  lemma PushFields(o: Outbox, entries: seq<Entry>)
    ensures var p := Enqueue(o, entries);
            p.queue == o.queue + entries && p.entered == o.entered + Queued(entries) && p.sent == o.sent
  {
  }

  lemma CompleteKeepsEntries(o: Outbox)
    requires AllEntriesKept(o)
    ensures AllEntriesKept(Complete(o))
  {
    if o.queue != [] {
      var front := o.queue[0];
      var sent, rest := Queued(o.sent), Queued(o.queue[1..]);
      assert Queued(o.sent + [front]) == sent + front.riders by {
        QueuedConcat(o.sent, [front]);
        QueuedOne(front);
      }
      Regroup(sent, front.riders, rest);
      CompleteFields(o);
    }
  }

  lemma CompleteFields(o: Outbox)
    requires o.queue != []
    ensures var p := Complete(o);
            p.queue == o.queue[1..] && p.entered == o.entered && p.sent == o.sent + [o.queue[0]]
  {
  }

  /** Without a clearing step, what entered the queue was sent or is still queued, in that order. */
  lemma StepKeepsEntries(c: Config, s: Endpoint, e: TimedEvent)
    requires AllEntriesKept(s.outbox) && !Drops(s, e.event)
    ensures AllEntriesKept(Step(c, s, e).outbox)
  {
    OutboxStep(c, s, e);
    var o := Step(c, s, e).outbox;
    match e.event
    case WriteDone => CompleteKeepsEntries(s.outbox);
    case WriteFailed(_, _) =>
    case Connect =>
    case Stop =>
    case Restart =>
    case _ =>
      if o != s.outbox {
        var entries :| entries != [] && o == Enqueue(s.outbox, entries);
        EnqueueKeepsEntries(s.outbox, entries);
      }
  }

  /** What is queued is dropped, and not sent, if and only if the step is one of those. */
  lemma DropsIff(c: Config, s: Endpoint, e: TimedEvent)
    requires s.outbox.queue != []
    ensures Drops(s, e.event) <==> Step(c, s, e).outbox.queue == [] && Step(c, s, e).outbox.sent == s.outbox.sent
  {
    OutboxStep(c, s, e);
  }

  // ---------------------------------------------------------------------------
  // The writer
  // ---------------------------------------------------------------------------

  /** On runs where every write succeeds there is one write in flight, exactly while the queue is not empty. */
  ghost predicate OneWriter(o: Outbox) {
    && !o.wasNotConnected
    && (o.isSending <==> o.queue != [])
    && o.inflight == (if o.queue != [] then 1 else 0)
  }

  lemma StepKeepsOneWriter(c: Config, s: Endpoint, e: TimedEvent)
    requires OneWriter(s.outbox) && Enabled(s, e) && !e.event.Stop? && !e.event.WriteFailed? && !e.event.Restart?
    ensures OneWriter(Step(c, s, e).outbox)
  {
    OutboxStep(c, s, e);
  }

  // ---------------------------------------------------------------------------
  // Over whole runs
  // ---------------------------------------------------------------------------

  /** Shape, conservation and accounting hold in every state an endpoint can reach. */
  lemma {:induction false} RunsConserve(c: Config, start: Time, es: seq<TimedEvent>)
    requires Sane(c) && Legal(c, Init(start), es)
    ensures var s := Run(c, Init(start), es);
            ShapeOk(c, s.yard) && Conserved(s) && Accounted(s.outbox)
  {
    if es != [] {
      var before := es[..|es| - 1];
      RunsConserve(c, start, before);
      StepKeepsShape(c, Run(c, Init(start), before), es[|es| - 1]);
      StepConserves(c, Run(c, Init(start), before), es[|es| - 1]);
      StepAccounts(c, Run(c, Init(start), before), es[|es| - 1]);
    }
  }

  /** As long as no step drops the queue, what entered it is what was sent followed by what is queued. */
  lemma {:induction false} RunsKeepEntries(c: Config, start: Time, es: seq<TimedEvent>)
    requires Legal(c, Init(start), es)
    requires forall n | 0 <= n < |es| :: !Drops(Run(c, Init(start), es[..n]), es[n].event)
    ensures AllEntriesKept(Run(c, Init(start), es).outbox)
    decreases |es|
  {
    if es != [] {
      var last := |es| - 1;
      assert forall n | 0 <= n < last :: es[..last][..n] == es[..n];
      RunsKeepEntries(c, start, es[..last]);
      StepKeepsEntries(c, Run(c, Init(start), es[..last]), es[last]);
    }
  }

  ghost predicate OnlySuccess(es: seq<TimedEvent>) {
    forall e :: e in es ==> !e.event.Stop? && !e.event.WriteFailed? && !e.event.Restart?
  }

  /**
   Conservation down to the wire: when every write succeeds, the accepted messages are those
   waiting in trains, queued or sent, and exactly one write is in flight while any is queued.
   */
  lemma {:induction false} SuccessfulRuns(c: Config, start: Time, es: seq<TimedEvent>)
    requires Sane(c) && Legal(c, Init(start), es) && OnlySuccess(es)
    ensures var s := Run(c, Init(start), es);
            && OneWriter(s.outbox)
            && AllEntriesKept(s.outbox)
            && multiset(s.accepted)
               == multiset(Waiting(s.yard)) + multiset(Queued(s.outbox.queue)) + multiset(Queued(s.outbox.sent))
  {
    if es != [] {
      SuccessfulRuns(c, start, es[..|es| - 1]);
      StepKeepsOneWriter(c, Run(c, Init(start), es[..|es| - 1]), es[|es| - 1]);
      StepKeepsEntries(c, Run(c, Init(start), es[..|es| - 1]), es[|es| - 1]);
    }
    RunsConserve(c, start, es);
  }
}
