/**
 The train scheduler of a client endpoint as a state machine over values.

 Messages board the current train. A train is either released straight into the send
 queue or first parked under its departure time. Entries of the queue are written to the
 socket one after the other. Every operation runs under the endpoint's mutex, so one
 operation is one atomic step; its clock readings all give the same value `now`.

 The fields `accepted`, `released`, `completions`, `entered`, `sent`, `inflight` and `clock` are
 history: no step reads them to decide anything. The same holds for the ticket of a rider.
 */
module TrainModel {
  import opened Bytes
  import opened Wrappers

  type Time = int      // nanoseconds on a steady clock
  type Duration = int  // nanoseconds

  const DURATION_MAX: Duration := 0x7FFF_FFFF_FFFF_FFFF
  const SIX_HOURS: Duration := 21_600_000_000_000

  /** A message whose service and method can be read, with a size that fits 32 bits. */
  type Message = m: seq<byte> | 4 <= |m| <= UINT32_MAX witness [0, 0, 0, 0]

  datatype Identifier = Identifier(service: nat, method_: nat)

  datatype Timing = Timing(debounce: Duration, retention: Duration)

  datatype Config = Config(maxMessageSize: nat, queueLimit: nat, timing: Identifier -> Timing)

  /** What the configuration guarantees: durations are not negative, limits fit 32 bits. */
  ghost predicate Sane(c: Config) {
    && c.maxMessageSize <= UINT32_MAX
    && c.queueLimit <= UINT32_MAX
    && forall id :: 0 <= c.timing(id).debounce < DURATION_MAX && 0 <= c.timing(id).retention < DURATION_MAX
  }

  /** A message on its way, numbered by acceptance. */
  datatype Rider = Rider(ticket: nat, data: Message, arrival: Time, timing: Timing)

  datatype Train = Train(
    riders: seq<Rider>,
    passengers: set<Identifier>,
    minDebounce: Duration,
    minRetention: Duration,
    departure: Time)

  datatype Timer = Idle | Armed(at: Time)

  datatype Entry = Entry(riders: seq<Rider>, separation: nat)

  /** A train that left for the queue, and when. */
  datatype Release = Release(train: Train, at: Time)

  /** The pieces a too large message is cut into, and the time to keep between them. */
  datatype Segmentation = Segmentation(segments: seq<Message>, separation: nat)

  /** The current train, the parked trains and the dispatch timer. */
  datatype Yard = Yard(
    train: Train,
    dispatched: seq<Train>,  // in order of release: by departure, first filed first within one departure
    timer: Timer)

  /** The send queue and its writer. */
  datatype Outbox = Outbox(
    queue: seq<Entry>,
    queueSize: int,
    isSending: bool,
    wasNotConnected: bool,
    entered: seq<Rider>,
    sent: seq<Entry>,
    inflight: nat)

  datatype Endpoint = Endpoint(
    yard: Yard,
    outbox: Outbox,
    blocked: bool,
    lastDeparture: Option<Time>,
    accepted: seq<Rider>,
    released: seq<Release>,
    completions: seq<Time>,
    clock: Time)

  datatype Failure = BrokenPipe | NotConnected | NoPermission | Aborted | AddressRequired | OtherFailure

  datatype Event =
    | Submit(data: Message, tp: Option<Segmentation>)
    | Flush
    | TimerFires
    | WriteDone
    | WriteFailed(error: Failure, connected: bool)
    | Connect
    | Stop
    | Restart

  datatype TimedEvent = At(now: Time, event: Event)

  // ---------------------------------------------------------------------------
  // Messages and trains
  // ---------------------------------------------------------------------------

  function Identify(m: Message): Identifier {
    Identifier(ReadUint16BE(m, 0), ReadUint16BE(m, 2))
  }

  /** The identifiers that a message can carry. */
  predicate Carriable(id: Identifier) {
    id.service < 0x1_0000 && id.method_ < 0x1_0000
  }

  /** The bytes of a train or of a queue entry: its messages one after the other. */
  function Cargo(riders: seq<Rider>): seq<byte> {
    if riders == [] then [] else Cargo(riders[..|riders| - 1]) + riders[|riders| - 1].data
  }

  function EmptyTrain(now: Time): Train {
    Train([], {}, DURATION_MAX, DURATION_MAX, now + SIX_HOURS)
  }

  /** Whether the current train has to leave before the message can board. */
  predicate MustDepart(c: Config, t: Train, rider: Rider) {
    && t.passengers != {}
    && (|| Identify(rider.data) in t.passengers
        || |Cargo(t.riders)| + |rider.data| > c.maxMessageSize
        || rider.timing.debounce > t.minRetention
        || rider.arrival + rider.timing.debounce > t.departure
        || rider.timing.retention < t.minDebounce)
  }

  /** The departure of a train that keeps its passengers and takes one more. */
  function BoardingDeparture(t: Train, rider: Rider): Time {
    var latest := rider.arrival + rider.timing.retention;
    if t.passengers == {} then latest else Min(t.departure, latest)
  }

  function Lower(t: Train, timing: Timing): Train {
    t.(minDebounce := Min(t.minDebounce, timing.debounce), minRetention := Min(t.minRetention, timing.retention))
  }

  function Board(t: Train, rider: Rider): Train {
    Lower(t, rider.timing).(
      riders := t.riders + [rider],
      passengers := t.passengers + {Identify(rider.data)},
      departure := BoardingDeparture(t, rider))
  }

  // ---------------------------------------------------------------------------
  // Parked trains
  // ---------------------------------------------------------------------------

  /** Where a train with the given departure is filed: behind all that leave no later. */
  function Slot(departures: seq<Time>, departure: Time): (k: nat)
    ensures k <= |departures|
  {
    if departures == [] || departures[0] > departure then 0 else 1 + Slot(departures[1..], departure)
  }

  lemma {:induction false} SlotBounds(departures: seq<Time>, departure: Time)
    ensures var k := Slot(departures, departure);
            && (forall i :: 0 <= i < k ==> departures[i] <= departure)
            && (k < |departures| ==> departures[k] > departure)
  {
    if departures != [] && departures[0] <= departure {
      SlotBounds(departures[1..], departure);
    }
  }

  function Departures(line: seq<Train>): (d: seq<Time>)
    ensures |d| == |line|
  {
    seq(|line|, i requires 0 <= i < |line| => line[i].departure)
  }

  function File(line: seq<Train>, t: Train): seq<Train> {
    var k := Slot(Departures(line), t.departure);
    line[..k] + [t] + line[k..]
  }

  function ScheduledDeparture(t: Train, lastDeparture: Option<Time>): Time {
    if lastDeparture.Some? then Max(t.departure, lastDeparture.value + t.minDebounce) else t.departure
  }

  function Scheduled(t: Train, lastDeparture: Option<Time>): Train {
    t.(departure := ScheduledDeparture(t, lastDeparture))
  }

  /** Parks the current train; another one takes its place. */
  function Schedule(y: Yard, lastDeparture: Option<Time>, successor: Train): Yard {
    y.(dispatched := File(y.dispatched, Scheduled(y.train, lastDeparture)), train := successor)
  }

  function NextDeparture(y: Yard): Time {
    if y.dispatched != [] then Min(y.dispatched[0].departure, y.train.departure) else y.train.departure
  }

  function StartTimer(y: Yard, now: Time): Yard {
    y.(timer := Armed(Max(now, NextDeparture(y))))
  }

  /** A message boards the current train or, if that has to leave, the next one. */
  function Admit(c: Config, y: Yard, lastDeparture: Option<Time>, rider: Rider): Yard {
    var ready :=
      if MustDepart(c, y.train, rider)
      then Schedule(y, lastDeparture, EmptyTrain(rider.arrival))
      else y;
    StartTimer(ready.(train := Board(ready.train, rider)), rider.arrival)
  }

  /** A segmented message bypasses the trains; passengers that wait are sent off before it. */
  function MakeRoom(y: Yard, lastDeparture: Option<Time>, now: Time, timing: Timing): Yard {
    var lowered := y.(train := Lower(y.train, timing));
    if y.train.passengers != {}
    then Schedule(lowered, lastDeparture, EmptyTrain(now).(departure := now + timing.retention))
    else lowered
  }

  /** Whether `flush` turns to a parked train instead of the current one. */
  predicate TakesParked(y: Yard) {
    y.dispatched != [] && y.dispatched[0].departure <= y.train.departure
  }

  /** Only a train that carries something enters the queue. */
  function Loaded(t: Train): Option<Train> {
    if Cargo(t.riders) != [] then Some(t) else None
  }

  datatype Flushed = Flushed(yard: Yard, train: Option<Train>)

  function FlushYard(y: Yard, now: Time): Flushed {
    if TakesParked(y) then
      Flushed(StartTimer(y.(dispatched := y.dispatched[1..]), now), Loaded(y.dispatched[0]))
    else
      var left := if Loaded(y.train).Some? then y.(train := EmptyTrain(now)) else y;
      Flushed(if y.dispatched != [] then StartTimer(left, now) else left, Loaded(y.train))
  }

  // ---------------------------------------------------------------------------
  // The send queue
  // ---------------------------------------------------------------------------

  /** Starts writing the front of the queue unless a write is in progress. */
  function Kick(o: Outbox): Outbox {
    if !o.isSending && o.queue != [] then o.(isSending := true, inflight := o.inflight + 1) else o
  }

  function Push(o: Outbox, entries: seq<Entry>): Outbox {
    o.(queue := o.queue + entries,
       queueSize := o.queueSize + QueueBytes(entries),
       entered := o.entered + Queued(entries))
  }

  function Enqueue(o: Outbox, entries: seq<Entry>): Outbox {
    Kick(Push(o, entries))
  }

  /** A write has finished. */
  function Complete(o: Outbox): Outbox {
    var ended := o.(inflight := if o.inflight > 0 then o.inflight - 1 else 0);
    if o.queue == [] then ended else
    var popped := ended.(queue := o.queue[1..],
                         queueSize := o.queueSize - |Cargo(o.queue[0].riders)|,
                         sent := o.sent + [o.queue[0]]);
    if popped.queue == [] then popped.(isSending := false) else popped.(inflight := popped.inflight + 1)
  }

  function ClearQueue(o: Outbox): Outbox {
    o.(queue := [], queueSize := 0)
  }

  function Fail(o: Outbox, drop: bool): Outbox {
    (if drop then ClearQueue(o) else o).(
      inflight := if o.inflight > 0 then o.inflight - 1 else 0,
      wasNotConnected := true,
      isSending := false)
  }

  /** Everything queued is dropped and writing waits for the next connect. */
  function DropAll(o: Outbox): Outbox {
    ClearQueue(o).(isSending := false, wasNotConnected := true)
  }

  /** The connection is (again) there: writing resumes with the front of the queue. */
  function Resume(o: Outbox): Outbox {
    if !o.wasNotConnected then o
    else if o.queue != [] then o.(wasNotConnected := false, isSending := true, inflight := o.inflight + 1)
    else o.(wasNotConnected := false)
  }

  // ---------------------------------------------------------------------------
  // The operations
  // ---------------------------------------------------------------------------

  predicate WithinQueueLimit(c: Config, queueSize: int, size: nat) {
    c.queueLimit == UINT32_MAX || queueSize + size <= c.queueLimit
  }

  predicate FitsMessageSize(c: Config, size: nat) {
    c.maxMessageSize == UINT32_MAX || size <= c.maxMessageSize
  }

  /** What `send` returns. */
  predicate Accepts(c: Config, s: Endpoint, data: Message, tp: Option<Segmentation>) {
    && !s.blocked
    && WithinQueueLimit(c, s.outbox.queueSize, |data|)
    && (FitsMessageSize(c, |data|) || tp.Some?)
  }

  function NewRider(c: Config, s: Endpoint, now: Time, data: Message): Rider {
    Rider(|s.accepted|, data, now, c.timing(Identify(data)))
  }

  function Send(c: Config, s: Endpoint, now: Time, data: Message, tp: Option<Segmentation>): Endpoint {
    if !Accepts(c, s, data, tp) then s
    else if !FitsMessageSize(c, |data|) then SendSegments(c, s, now, tp.value)
    else
      var rider := NewRider(c, s, now, data);
      s.(yard := Admit(c, s.yard, s.lastDeparture, rider), accepted := s.accepted + [rider])
  }

  function SegmentRiders(ticket: nat, now: Time, timing: Timing, segments: seq<Message>): (riders: seq<Rider>)
    ensures |riders| == |segments|
  {
    seq(|segments|, i requires 0 <= i < |segments| => Rider(ticket + i, segments[i], now, timing))
  }

  /** One queue entry per rider. */
  function Singles(riders: seq<Rider>, separation: nat): seq<Entry> {
    seq(|riders|, i requires 0 <= i < |riders| => Entry([riders[i]], separation))
  }

  function SendSegments(c: Config, s: Endpoint, now: Time, tp: Segmentation): Endpoint {
    if tp.segments == [] then s else
    var timing := c.timing(Identify(tp.segments[0]));
    var riders := SegmentRiders(|s.accepted|, now, timing, tp.segments);
    s.(yard := MakeRoom(s.yard, s.lastDeparture, now, timing),
       outbox := Enqueue(s.outbox, Singles(riders, tp.separation)),
       accepted := s.accepted + riders)
  }

  /** A released train enters the queue. */
  function Ship(o: Outbox, t: Option<Train>): Outbox {
    if t.Some? then Enqueue(o, [Entry(t.value.riders, 0)]) else o
  }

  function Record(released: seq<Release>, t: Option<Train>, now: Time): seq<Release> {
    if t.Some? then released + [Release(t.value, now)] else released
  }

  function FlushTrains(s: Endpoint, now: Time): Endpoint {
    var f := FlushYard(s.yard, now);
    s.(yard := f.yard, outbox := Ship(s.outbox, f.train), released := Record(s.released, f.train, now))
  }

  function WriteCompletes(s: Endpoint, now: Time): Endpoint {
    s.(outbox := Complete(s.outbox),
       lastDeparture := if s.outbox.queue != [] then Some(now) else s.lastDeparture,
       completions := if s.outbox.queue != [] then s.completions + [now] else s.completions)
  }

  /** Whether a failed write makes the endpoint drop its queue. */
  predicate DropsQueue(blocked: bool, error: Failure, connected: bool) {
    connected && (error == NoPermission || (error == BrokenPipe && blocked))
  }

  function WriteFails(s: Endpoint, error: Failure, connected: bool): Endpoint {
    s.(outbox := Fail(s.outbox, DropsQueue(s.blocked, error, connected)),
       blocked := s.blocked || (error == Aborted && connected))
  }

  function Connected(s: Endpoint): Endpoint {
    if s.blocked then s else s.(outbox := Resume(s.outbox))
  }

  function StopSending(s: Endpoint): Endpoint {
    s.(outbox := ClearQueue(s.outbox), blocked := true)
  }

  function Restarted(s: Endpoint): Endpoint {
    s.(outbox := DropAll(s.outbox))
  }

  // ---------------------------------------------------------------------------
  // Runs
  // ---------------------------------------------------------------------------

  function Init(now: Time): Endpoint {
    Endpoint(Yard(EmptyTrain(now), [], Idle), Outbox([], 0, false, false, [], [], 0), false, None, [], [], [], now)
  }

  /** The timer has expired, so nothing is pending on it any more. */
  function TimerOff(s: Endpoint): Endpoint {
    s.(yard := s.yard.(timer := Idle))
  }

  function Perform(c: Config, s: Endpoint, now: Time, event: Event): Endpoint {
    match event
    case Submit(data, tp) => Send(c, s, now, data, tp)
    case Flush => FlushTrains(s, now)
    case TimerFires => FlushTrains(TimerOff(s), now)
    case WriteDone => WriteCompletes(s, now)
    case WriteFailed(error, connected) => WriteFails(s, error, connected)
    case Connect => Connected(s)
    case Stop => StopSending(s)
    case Restart => Restarted(s)
  }

  function Ticked(s: Endpoint, now: Time): Endpoint {
    s.(clock := now)
  }

  function Step(c: Config, s: Endpoint, e: TimedEvent): Endpoint {
    Perform(c, Ticked(s, e.now), e.now, e.event)
  }

  /** Time never runs backwards, timers fire when due, writes end after they were begun. */
  predicate Enabled(s: Endpoint, e: TimedEvent) {
    && s.clock <= e.now
    && (e.event.TimerFires? ==> s.yard.timer.Armed? && s.yard.timer.at <= e.now)
    && (e.event.WriteDone? || e.event.WriteFailed? ==> s.outbox.inflight > 0)
  }

  function Run(c: Config, s: Endpoint, es: seq<TimedEvent>): Endpoint {
    if es == [] then s else Step(c, Run(c, s, es[..|es| - 1]), es[|es| - 1])
  }

  ghost predicate Legal(c: Config, s: Endpoint, es: seq<TimedEvent>) {
    es == [] || (Legal(c, s, es[..|es| - 1]) && Enabled(Run(c, s, es[..|es| - 1]), es[|es| - 1]))
  }

  // ---------------------------------------------------------------------------
  // Riders of lines and queues
  // ---------------------------------------------------------------------------

  function Aboard(line: seq<Train>): seq<Rider> {
    if line == [] then [] else line[0].riders + Aboard(line[1..])
  }

  function Queued(queue: seq<Entry>): seq<Rider> {
    if queue == [] then [] else queue[0].riders + Queued(queue[1..])
  }

  function QueueBytes(queue: seq<Entry>): nat {
    if queue == [] then 0 else |Cargo(queue[0].riders)| + QueueBytes(queue[1..])
  }

  /** All riders that wait in trains, in the order in which flushing would release them. */
  function Waiting(y: Yard): seq<Rider> {
    Aboard(y.dispatched) + y.train.riders
  }

  lemma Regroup<T>(a: seq<T>, b: seq<T>, c: seq<T>)
    ensures (a + b) + c == a + (b + c)
  {
  }

  lemma {:induction false} AboardConcat(a: seq<Train>, b: seq<Train>)
    ensures Aboard(a + b) == Aboard(a) + Aboard(b)
  {
    if a == [] {
      assert a + b == b;
    } else {
      assert (a + b)[1..] == a[1..] + b;
      AboardConcat(a[1..], b);
    }
  }

  lemma {:induction false} QueuedConcat(p: seq<Entry>, q: seq<Entry>)
    ensures Queued(p + q) == Queued(p) + Queued(q)
    ensures QueueBytes(p + q) == QueueBytes(p) + QueueBytes(q)
  {
    if p == [] {
      assert p + q == q;
    } else {
      assert (p + q)[1..] == p[1..] + q;
      QueuedConcat(p[1..], q);
    }
  }

  lemma {:induction false} QueuedSingles(riders: seq<Rider>, separation: nat)
    ensures Queued(Singles(riders, separation)) == riders
  {
    if riders != [] {
      assert Singles(riders, separation)[1..] == Singles(riders[1..], separation);
      QueuedSingles(riders[1..], separation);
    }
  }

  lemma PushTwice(o: Outbox, a: seq<Entry>, b: seq<Entry>)
    ensures Push(Push(o, a), b) == Push(o, a + b)
  {
    QueuedConcat(a, b);
    Regroup(o.queue, a, b);
    Regroup(o.entered, Queued(a), Queued(b));
  }

  lemma QueuedOne(e: Entry)
    ensures Queued([e]) == e.riders
    ensures QueueBytes([e]) == |Cargo(e.riders)|
  {
    assert [e][1..] == [];
  }

  lemma CargoAppend(riders: seq<Rider>, r: Rider)
    ensures Cargo(riders + [r]) == Cargo(riders) + r.data
  {
    assert (riders + [r])[..|riders|] == riders;
  }

  /** Every message has bytes, so only a train without riders has an empty buffer. */
  lemma CargoEmpty(riders: seq<Rider>)
    ensures Cargo(riders) == [] <==> riders == []
  {
  }
}
