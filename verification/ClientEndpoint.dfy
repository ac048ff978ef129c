/**
 The client endpoint with its shared, mutable trains and buffers. Parked trains live in buckets
 by departure time, and a queue entry shares the buffer of the train it came from. Every
 operation is proved to take the step of the state machine over values; in particular no byte
 of a queued or parked buffer changes, although the current train is updated in place.
 */
module ClientEndpoints {
  import opened Bytes
  import opened TrainModel
  import opened ParkedTrains
  import opened Wrappers

  /** The timer is set anew whenever a message boards, whatever it was set to before. */
  lemma AdmitIgnoresTimer(c: Config, y: Yard, lastDeparture: Option<Time>, rider: Rider)
    ensures Admit(c, y.(timer := Idle), lastDeparture, rider) == Admit(c, y, lastDeparture, rider)
  {
  }

  lemma SubmitWhole(c: Config, s: Endpoint, now: Time, data: Message, tp: Option<Segmentation>)
    requires Accepts(c, s, data, tp) && FitsMessageSize(c, |data|)
    ensures var rider := NewRider(c, s, now, data);
            var y := Admit(c, s.yard.(timer := Idle), s.lastDeparture, rider);
            TrainModel.Send(c, s, now, data, tp)
            == Endpoint(y, s.outbox, s.blocked, s.lastDeparture, s.accepted + [rider], s.released, s.completions, s.clock)
  {
    AdmitIgnoresTimer(c, s.yard, s.lastDeparture, NewRider(c, s, now, data));
  }

  lemma SubmitSegments(c: Config, s: Endpoint, now: Time, data: Message, tp: Segmentation)
    requires Accepts(c, s, data, Some(tp)) && !FitsMessageSize(c, |data|) && tp.segments != []
    ensures var timing := c.timing(Identify(tp.segments[0]));
            var riders := SegmentRiders(|s.accepted|, now, timing, tp.segments);
            TrainModel.Send(c, s, now, data, Some(tp))
            == Endpoint(MakeRoom(s.yard, s.lastDeparture, now, timing), Enqueue(s.outbox, Singles(riders, tp.separation)),
                        s.blocked, s.lastDeparture, s.accepted + riders, s.released, s.completions, s.clock)
  {
  }

  class MessageBuffer {
    var bytes: seq<byte>

    constructor (bytes: seq<byte>)
      ensures this.bytes == bytes
    {
      this.bytes := bytes;
    }
  }

  class TrainRecord {
    var buffer: MessageBuffer
    var passengers: set<Identifier>
    var minDebounce: Duration
    var minRetention: Duration
    var departure: Time

    /** This record has the content of the train `t`. */
    ghost predicate Shows(t: Train)
      reads this, buffer
    {
      && buffer.bytes == Cargo(t.riders)
      && passengers == t.passengers
      && minDebounce == t.minDebounce
      && minRetention == t.minRetention
      && departure == t.departure
    }

    constructor (now: Time)
      ensures Shows(EmptyTrain(now))
      ensures fresh(buffer)
    {
      buffer := new MessageBuffer([]);
      passengers := {};
      minDebounce := DURATION_MAX;
      minRetention := DURATION_MAX;
      departure := now + SIX_HOURS;
    }

    /** Lowers the minimal times. */
    method LowerTimes(timing: Timing, ghost t: Train)
      requires Shows(t)
      modifies `minDebounce, `minRetention
      ensures Shows(Lower(t, timing))
    {
      if timing.debounce < minDebounce {
        minDebounce := timing.debounce;
      }
      if timing.retention < minRetention {
        minRetention := timing.retention;
      }
    }

    /** Takes one more message on board, in place. */
    method TakeOn(data: Message, timing: Timing, departure: Time, ghost t: Train, ghost rider: Rider)
      requires Shows(t) && rider.data == data && rider.timing == timing && departure == BoardingDeparture(t, rider)
      modifies `passengers, `minDebounce, `minRetention, `departure, buffer`bytes
      ensures Shows(Board(t, rider))
    {
      CargoAppend(t.riders, rider);
      LowerTimes(timing, t);
      this.departure := departure;
      buffer.bytes := buffer.bytes + data;
      passengers := passengers + {Identify(data)};
    }

    /** Starts over with a buffer of its own; whoever shares the old buffer keeps it. */
    method Reset(now: Time)
      modifies `buffer, `passengers, `minDebounce, `minRetention, `departure
      ensures Shows(EmptyTrain(now))
      ensures fresh(buffer)
    {
      buffer := new MessageBuffer([]);
      passengers := {};
      minDebounce := DURATION_MAX;
      minRetention := DURATION_MAX;
      departure := now + SIX_HOURS;
    }
  }

  class ClientEndpoint {
    const config: Config

    var train: TrainRecord
    var dispatched: map<Time, seq<TrainRecord>>
    var timer: Timer
    var queue: seq<(MessageBuffer, nat)>
    var queueSize: int
    var isSending: bool
    var wasNotConnected: bool
    var sendingBlocked: bool
    var lastDeparture: Option<Time>

    ghost var line: seq<TrainRecord>  // the parked trains in order of release

    // The values of the current train, of the parked trains and of the queue with its writer,
    // and the history that the state machine records.
    ghost var current: Train
    ghost var parked: seq<Train>
    ghost var outbox: Outbox
    ghost var accepted: seq<Rider>
    ghost var released: seq<Release>
    ghost var completions: seq<Time>
    ghost var clock: Time

    ghost function YardModel(): Yard
      reads this`current, this`parked, this`timer
    {
      Yard(current, parked, timer)
    }

    /** The state of the endpoint over values. */
    ghost function Model(): Endpoint
      reads this
    {
      Endpoint(YardModel(), outbox, sendingBlocked, lastDeparture, accepted, released, completions, clock)
    }

    /** The current train and its buffer are not among the parked ones. */
    ghost predicate NotParked()
      reads this`train, this`line, train, line
    {
      forall t :: t in line ==> t != train && t.buffer != train.buffer
    }

    /** The buffer of the current train is not queued. */
    ghost predicate NotQueued()
      reads this`train, this`queue, train
    {
      forall e :: e in queue ==> e.0 != train.buffer
    }

    ghost predicate ParkedShown()
      reads this`dispatched, this`line, this`parked, line, set t | t in line :: t.buffer
    {
      && |line| == |parked|
      && (forall i :: 0 <= i < |line| ==> line[i].Shows(parked[i]))
      && Filed(dispatched, line, Departures(parked))
    }

    ghost predicate QueueShown()
      reads this`queue, this`outbox, this`queueSize, this`isSending, this`wasNotConnected, set e | e in queue :: e.0
    {
      && |queue| == |outbox.queue|
      && (forall i :: 0 <= i < |queue| ==>
            queue[i].0.bytes == Cargo(outbox.queue[i].riders) && queue[i].1 == outbox.queue[i].separation)
      && queueSize == outbox.queueSize
      && isSending == outbox.isSending
      && wasNotConnected == outbox.wasNotConnected
    }

    ghost predicate Valid()
      reads this`train, this`dispatched, this`line, this`queue, this`current, this`parked
      reads this`outbox, this`queueSize, this`isSending, this`wasNotConnected
      reads train, train.buffer, line, (set t | t in line :: t.buffer), set e | e in queue :: e.0
    {
      NotParked() && NotQueued() && train.Shows(current) && ParkedShown() && QueueShown()
    }

    constructor (config: Config, now: Time)
      ensures Valid() && fresh(train) && fresh(train.buffer)
      ensures this.config == config && Model() == Init(now)
    {
      this.config := config;
      train := new TrainRecord(now);
      dispatched := map[];
      timer := Idle;
      queue, queueSize := [], 0;
      isSending, wasNotConnected, sendingBlocked := false, false, false;
      lastDeparture := None;
      line := [];
      current, parked, outbox := EmptyTrain(now), [], Outbox([], 0, false, false, [], [], 0);
      accepted, released, completions, clock := [], [], [], now;
    }

    // -------------------------------------------------------------------------
    // Parked trains and the dispatch timer
    // -------------------------------------------------------------------------

    /** The train whose departure the debounce time after the last write postpones. */
    method Postpone()
      requires Valid()
      modifies this`current, train`departure
      ensures Valid()
      ensures current == Scheduled(old(current), lastDeparture)
    {
      if lastDeparture.Some? {
        if lastDeparture.value + train.minDebounce > train.departure {
          train.departure := lastDeparture.value + train.minDebounce;
        }
      }
      current := Scheduled(current, lastDeparture);
    }

    /** Files the current train in the bucket of its departure time. */
    method FileTrain()
      requires ParkedShown() && train.Shows(current)
      modifies this`dispatched, this`line, this`parked
      ensures ParkedShown() && parked == File(old(parked), current)
      ensures forall t :: t in line <==> t == train || t in old(line)
    {
      ghost var at := Slot(Departures(parked), current.departure);
      FileIntoBucket(dispatched, line, Departures(parked), train, current.departure);
      FileInserts(parked, current);
      InsertMembers(line, at, train);
      forall i | 0 <= i <= |line| ensures Insert(line, at, train)[i].Shows(Insert(parked, at, current)[i]) {
        InsertAt(line, at, train, i);
        InsertAt(parked, at, current, i);
      }
      var bucket := if train.departure in dispatched then dispatched[train.departure] else [];
      dispatched := dispatched[train.departure := bucket + [train]];
      line := Insert(line, at, train);
      parked := File(parked, current);
    }

    /** Parks the current train; `successor` becomes the current train. */
    method ParkTrain(successor: TrainRecord, ghost s: Train)
      requires Valid() && successor.Shows(s)
      requires successor != train && successor !in line && successor.buffer != train.buffer
      requires forall t :: t in line ==> t.buffer != successor.buffer
      requires forall e :: e in queue ==> e.0 != successor.buffer
      modifies this`train, this`dispatched, this`line, this`current, this`parked
      ensures Valid() && train == successor
      ensures current == s && parked == File(old(parked), old(current))
    {
      FileTrain();
      current := s;
      train := successor;
    }

    /** Parks the current train under its departure time, which debouncing may postpone. */
    method ScheduleTrain(successor: TrainRecord, ghost s: Train)
      requires Valid() && successor.Shows(s)
      requires successor != train && successor !in line && successor.buffer != train.buffer
      requires forall t :: t in line ==> t.buffer != successor.buffer
      requires forall e :: e in queue ==> e.0 != successor.buffer
      modifies this`train, this`dispatched, this`line, this`current, this`parked, train`departure
      ensures Valid() && train == successor
      ensures YardModel() == Schedule(old(YardModel()), lastDeparture, s)
    {
      Postpone();
      ParkTrain(successor, s);
    }

    /** The earliest departure among the parked trains. */
    method FirstDeparture() returns (k: Time)
      requires ParkedShown() && line != []
      ensures k == parked[0].departure && k in dispatched && dispatched[k] != [] && dispatched[k][0] == line[0]
    {
      FirstBucket(dispatched, line, Departures(parked));
      k :| k in dispatched.Keys && forall j :: j in dispatched.Keys ==> k <= j;
    }

    method AnyParked() returns (b: bool)
      requires ParkedShown()
      ensures b <==> parked != []
      ensures b <==> line != []
    {
      FirstBucket(dispatched, line, Departures(parked));
      b := dispatched != map[];
    }

    /** When the next train leaves. */
    method ChooseNext() returns (departure: Time)
      requires ParkedShown() && train.Shows(current)
      ensures departure == NextDeparture(YardModel())
    {
      departure := train.departure;
      var any := AnyParked();
      if any {
        var first := FirstDeparture();
        if first < departure {
          departure := dispatched[first][0].departure;
        }
      }
    }

    method StartDispatchTimer(now: Time)
      requires Valid()
      modifies this`timer
      ensures Valid()
      ensures YardModel() == StartTimer(old(YardModel()), now)
    {
      var departure := ChooseNext();
      var offset := if departure > now then departure - now else 0;
      timer := Armed(now + offset);
    }

    // -------------------------------------------------------------------------
    // The send queue
    // -------------------------------------------------------------------------

    /** Starts a write of the front of the queue unless one is in progress. */
    method StartWriting()
      requires Valid()
      modifies this`isSending, this`outbox
      ensures Valid()
      ensures outbox == Kick(old(outbox))
    {
      if !isSending && queue != [] {
        isSending := true;
      }
      outbox := Kick(outbox);
    }

    /** Appends a buffer, shared with its train, to the queue. */
    method Append(buffer: MessageBuffer, separation: nat, ghost riders: seq<Rider>)
      requires QueueShown() && buffer.bytes == Cargo(riders)
      modifies this`queue, this`queueSize, this`outbox
      ensures QueueShown() && queue == old(queue) + [(buffer, separation)]
      ensures outbox == Push(old(outbox), [Entry(riders, separation)])
    {
      QueuedOne(Entry(riders, separation));
      queueSize := queueSize + |buffer.bytes|;
      queue := queue + [(buffer, separation)];
      outbox := Push(outbox, [Entry(riders, separation)]);
    }

    predicate CheckQueueLimit(size: nat)
      reads this
    {
      !(config.queueLimit != UINT32_MAX && queueSize + size > config.queueLimit)
    }

    predicate CheckMessageSize(size: nat) {
      !(config.maxMessageSize != UINT32_MAX && size > config.maxMessageSize)
    }

    // -------------------------------------------------------------------------
    // Sending
    // -------------------------------------------------------------------------

    /** The message boards the current train, which then leaves at `departure`. */
    method BoardTrain(data: Message, timing: Timing, departure: Time, ghost rider: Rider)
      requires Valid() && rider.data == data && rider.timing == timing && departure == BoardingDeparture(current, rider)
      modifies this`current, train`passengers, train`minDebounce, train`minRetention, train`departure, train.buffer`bytes
      ensures Valid() && train.buffer == old(train.buffer)
      ensures current == Board(old(current), rider)
    {
      train.TakeOn(data, timing, departure, current, rider);
      current := Board(current, rider);
    }

    /** Whether the current train has to leave first, and when the train with the message leaves. */
    method PlanBoarding(data: Message, timing: Timing, now: Time, ghost rider: Rider) returns (mustDepart: bool, departure: Time)
      requires Valid() && rider.data == data && rider.timing == timing && rider.arrival == now
      ensures mustDepart == MustDepart(config, current, rider)
      ensures departure == if mustDepart then now + timing.retention else BoardingDeparture(current, rider)
    {
      mustDepart := false;
      departure := train.departure;
      if train.passengers == {} {
        departure := now + timing.retention;
      } else if Identify(data) in train.passengers {
        mustDepart := true;
      } else if |train.buffer.bytes| + |data| > config.maxMessageSize {
        mustDepart := true;
      } else if timing.debounce > train.minRetention {
        mustDepart := true;
      } else if now + timing.debounce > train.departure {
        mustDepart := true;
      } else if timing.retention < train.minDebounce {
        mustDepart := true;
      } else if now + timing.retention < train.departure {
        departure := now + timing.retention;
      }
      if mustDepart {
        departure := now + timing.retention;
      }
    }

    /** The current train is parked; a new one, due at `departure`, takes its place. */
    method NextTrain(now: Time, departure: Time)
      requires Valid()
      modifies this`train, this`dispatched, this`line, this`current, this`parked, train`departure
      ensures Valid() && fresh(train) && fresh(train.buffer)
      ensures YardModel() == Schedule(old(YardModel()), lastDeparture, EmptyTrain(now).(departure := departure))
    {
      var next := new TrainRecord(now);
      next.departure := departure;
      ScheduleTrain(next, EmptyTrain(now).(departure := departure));
    }

    /** The current train is parked and the message boards the next one. */
    method BoardNextTrain(data: Message, timing: Timing, now: Time, ghost rider: Rider)
      requires Valid() && rider.data == data && rider.arrival == now && rider.timing == timing
      modifies this`train, this`dispatched, this`line, this`current, this`parked, train`departure
      ensures Valid() && fresh(train) && fresh(train.buffer)
      ensures current == Board(EmptyTrain(now), rider)
      ensures parked == File(old(parked), Scheduled(old(current), lastDeparture))
    {
      NextTrain(now, now + timing.retention);
      BoardTrain(data, timing, now + timing.retention, rider);
    }

    /** The message boards the current train, or the next one if the current train has to leave. */
    method BoardMessage(data: Message, now: Time, ghost rider: Rider)
      requires Valid() && rider.data == data && rider.arrival == now && rider.timing == config.timing(Identify(data))
      modifies this`train, this`dispatched, this`line, this`current, this`parked
      modifies train`passengers, train`minDebounce, train`minRetention, train`departure, train.buffer`bytes
      ensures Valid()
      ensures (train == old(train) && train.buffer == old(train.buffer)) || (fresh(train) && fresh(train.buffer))
      ensures StartTimer(YardModel(), now) == Admit(config, old(YardModel()), lastDeparture, rider)
    {
      var timing := config.timing(Identify(data));
      var mustDepart, departure := PlanBoarding(data, timing, now, rider);
      if mustDepart {
        BoardNextTrain(data, timing, now, rider);
      } else {
        BoardTrain(data, timing, departure, rider);
      }
    }

    method AdmitMessage(data: Message, now: Time, ghost rider: Rider)
      requires Valid() && rider.data == data && rider.arrival == now && rider.timing == config.timing(Identify(data))
      modifies this`train, this`dispatched, this`line, this`timer, this`current, this`parked
      modifies train`passengers, train`minDebounce, train`minRetention, train`departure, train.buffer`bytes
      ensures Valid()
      ensures (train == old(train) && train.buffer == old(train.buffer)) || (fresh(train) && fresh(train.buffer))
      ensures YardModel() == Admit(config, old(YardModel()), lastDeparture, rider)
    {
      BoardMessage(data, now, rider);
      StartDispatchTimer(now);
    }

    /** Time passes. */
    ghost method Tick(now: Time)
      requires Valid()
      modifies this`clock
      ensures Valid() && Model() == Ticked(old(Model()), now)
    {
      clock := now;
    }

    /** The history records accepted messages. */
    ghost method Note(riders: seq<Rider>)
      requires Valid()
      modifies this`accepted
      ensures Valid() && Model() == old(Model()).(accepted := old(accepted) + riders)
    {
      accepted := accepted + riders;
    }

    method CancelDispatchTimer()
      requires Valid()
      modifies this`timer
      ensures Valid() && Model() == TimerOff(old(Model()))
    {
      timer := Idle;
    }

    /** The minimal times of the current train count the segmented message, too. */
    method LowerTimes(timing: Timing)
      requires Valid()
      modifies this`current, train`minDebounce, train`minRetention
      ensures Valid() && current == Lower(old(current), timing)
    {
      train.LowerTimes(timing, current);
      current := Lower(current, timing);
    }

    /** Sends waiting passengers off. */
    method ClearTrain(timing: Timing, now: Time)
      requires Valid()
      modifies this`train, this`dispatched, this`line, this`current, this`parked
      modifies train`minDebounce, train`minRetention, train`departure
      ensures Valid()
      ensures (train == old(train) && train.buffer == old(train.buffer)) || (fresh(train) && fresh(train.buffer))
      ensures YardModel() == MakeRoom(old(YardModel()), lastDeparture, now, timing)
    {
      LowerTimes(timing);
      if train.passengers != {} {
        NextTrain(now, now + timing.retention);
      }
    }

    /** Queues one buffer per segment. */
    method AppendAll(segments: seq<Message>, separation: nat, ghost riders: seq<Rider>)
      requires Valid() && |riders| == |segments| && forall i :: 0 <= i < |riders| ==> riders[i].data == segments[i]
      modifies this`queue, this`queueSize, this`outbox
      ensures Valid()
      ensures outbox == Push(old(outbox), Singles(riders, separation))
    {
      ghost var o := outbox;
      var i := 0;
      while i < |segments|
        invariant 0 <= i <= |segments|
        invariant QueueShown()
        invariant forall e :: e in queue ==> e in old(queue) || fresh(e.0)
        invariant outbox == Push(o, Singles(riders[..i], separation))
      {
        var buffer := new MessageBuffer(segments[i]);
        assert Cargo([riders[i]]) == segments[i] by {
          CargoAppend([], riders[i]);
          assert [] + [riders[i]] == [riders[i]];
        }
        Append(buffer, separation, [riders[i]]);
        PushTwice(o, Singles(riders[..i], separation), [Entry([riders[i]], separation)]);
        assert Singles(riders[..i + 1], separation) == Singles(riders[..i], separation) + [Entry([riders[i]], separation)];
        i := i + 1;
      }
      assert riders[..i] == riders;
    }

    /** The segments are queued behind each other and writing starts. */
    method QueueSegments(tp: Segmentation, ghost riders: seq<Rider>)
      requires Valid() && |riders| == |tp.segments| && forall i :: 0 <= i < |riders| ==> riders[i].data == tp.segments[i]
      modifies this`queue, this`queueSize, this`isSending, this`outbox
      ensures Valid()
      ensures outbox == Enqueue(old(outbox), Singles(riders, tp.separation))
    {
      AppendAll(tp.segments, tp.separation, riders);
      StartWriting();
    }

    /** Waiting passengers are sent off and the segments are queued. */
    method SendSegments(tp: Segmentation, timing: Timing, now: Time, ghost riders: seq<Rider>)
      requires Valid() && |riders| == |tp.segments| && forall i :: 0 <= i < |riders| ==> riders[i].data == tp.segments[i]
      modifies this`train, this`dispatched, this`line, this`current, this`parked
      modifies this`queue, this`queueSize, this`isSending, this`outbox
      modifies train`minDebounce, train`minRetention, train`departure
      ensures Valid()
      ensures (train == old(train) && train.buffer == old(train.buffer)) || (fresh(train) && fresh(train.buffer))
      ensures YardModel() == MakeRoom(old(YardModel()), lastDeparture, now, timing)
      ensures outbox == Enqueue(old(outbox), Singles(riders, tp.separation))
    {
      ClearTrain(timing, now);
      QueueSegments(tp, riders);
    }

    /** A message of admissible size boards a train. */
    method SendFitting(data: Message, ghost tp: Option<Segmentation>, now: Time)
      requires Valid() && Accepts(config, Model(), data, tp) && FitsMessageSize(config, |data|)
      modifies this, train`passengers, train`minDebounce, train`minRetention, train`departure, train.buffer`bytes
      ensures Valid()
      ensures (train == old(train) && train.buffer == old(train.buffer)) || (fresh(train) && fresh(train.buffer))
      ensures Model() == TrainModel.Send(config, Ticked(old(Model()), now), now, data, tp)
    {
      ghost var s := Ticked(Model(), now);
      SubmitWhole(config, s, now, data, tp);
      ghost var rider := NewRider(config, s, now, data);
      Tick(now);
      CancelDispatchTimer();
      AdmitMessage(data, now, rider);
      Note([rider]);
    }

    /** A message that is too large is cut into segments. */
    method SendTooLarge(data: Message, tp: Segmentation, now: Time)
      requires Valid() && Accepts(config, Model(), data, Some(tp)) && !FitsMessageSize(config, |data|) && tp.segments != []
      modifies this, train`passengers, train`minDebounce, train`minRetention, train`departure, train.buffer`bytes
      ensures Valid()
      ensures (train == old(train) && train.buffer == old(train.buffer)) || (fresh(train) && fresh(train.buffer))
      ensures Model() == TrainModel.Send(config, Ticked(old(Model()), now), now, data, Some(tp))
    {
      SubmitSegments(config, Ticked(Model(), now), now, data, tp);
      Tick(now);
      var timing := config.timing(Identify(tp.segments[0]));
      ghost var riders := SegmentRiders(|accepted|, now, timing, tp.segments);
      SendSegments(tp, timing, now, riders);
      Note(riders);
    }

    /** A refused message changes nothing; an accepted one boards a train or is queued in segments. */
    method Send(data: Message, tp: Option<Segmentation>, now: Time) returns (ok: bool)
      requires Valid()
      modifies this, train`passengers, train`minDebounce, train`minRetention, train`departure, train.buffer`bytes
      ensures Valid()
      ensures (train == old(train) && train.buffer == old(train.buffer)) || (fresh(train) && fresh(train.buffer))
      ensures ok == Accepts(config, old(Model()), data, tp)
      ensures Model() == TrainModel.Send(config, Ticked(old(Model()), now), now, data, tp)
    {
      if sendingBlocked || !CheckQueueLimit(|data|) {
        Tick(now);
        return false;
      }
      if CheckMessageSize(|data|) {
        SendFitting(data, tp, now);
        return true;
      }
      if tp.None? {
        Tick(now);
        return false;
      }
      if tp.value.segments == [] {
        Tick(now);
        return true;
      }
      SendTooLarge(data, tp.value, now);
      return true;
    }

    // -------------------------------------------------------------------------
    // Flushing
    // -------------------------------------------------------------------------

    /** The buffer of a train is queued and writing starts; the train keeps sharing the buffer. */
    method QueueTrain(t: TrainRecord, ghost v: Train)
      requires QueueShown() && t.Shows(v)
      modifies this`queue, this`queueSize, this`isSending, this`outbox
      ensures QueueShown() && queue == old(queue) + [(t.buffer, 0)]
      ensures outbox == Enqueue(old(outbox), [Entry(v.riders, 0)])
    {
      Append(t.buffer, 0, v.riders);
      if !isSending && queue != [] {
        isSending := true;
      }
      outbox := Kick(outbox);
    }

    /** Takes the first train out of the first bucket. */
    method TakeParked() returns (t: TrainRecord)
      requires ParkedShown() && line != []
      modifies this`dispatched, this`line, this`parked
      ensures ParkedShown() && t == old(line[0])
      ensures line == old(line[1..]) && parked == old(parked[1..])
    {
      var first := FirstDeparture();
      TakeFromFirstBucket(dispatched, line, Departures(parked));
      assert Departures(parked)[1..] == Departures(parked[1..]);
      t := dispatched[first][0];
      var rest := dispatched[first][1..];
      if rest == [] {
        dispatched := dispatched - {first};
      } else {
        dispatched := dispatched[first := rest];
      }
      line := line[1..];
      parked := parked[1..];
    }

    /** The parked train that leaves first enters the queue. */
    method ReleaseParked() returns (hasQueued: bool)
      requires Valid() && line != []
      modifies this`dispatched, this`line, this`parked, this`queue, this`queueSize, this`isSending, this`outbox
      ensures Valid()
      ensures hasQueued == Loaded(old(parked[0])).Some?
      ensures parked == old(parked[1..])
      ensures outbox == Ship(old(outbox), Loaded(old(parked[0])))
    {
      ghost var v := parked[0];
      var t := TakeParked();
      hasQueued := t.buffer.bytes != [];
      if hasQueued {
        QueueTrain(t, v);
      }
    }

    /** The current train enters the queue and starts over. */
    method ReleaseCurrent(now: Time) returns (hasQueued: bool)
      requires Valid()
      modifies this`current, this`queue, this`queueSize, this`isSending, this`outbox
      modifies train`buffer, train`passengers, train`minDebounce, train`minRetention, train`departure
      ensures Valid() && (train.buffer == old(train.buffer) || fresh(train.buffer))
      ensures hasQueued == Loaded(old(current)).Some?
      ensures current == if hasQueued then EmptyTrain(now) else old(current)
      ensures outbox == Ship(old(outbox), Loaded(old(current)))
    {
      hasQueued := train.buffer.bytes != [];
      if hasQueued {
        QueueTrain(train, current);
        train.Reset(now);
        current := EmptyTrain(now);
      }
    }

    /** The first parked train leaves and the timer is set for the next one. */
    method ReleaseParkedAndWait(now: Time) returns (hasQueued: bool)
      requires Valid() && line != []
      modifies this`dispatched, this`line, this`parked, this`timer, this`queue, this`queueSize, this`isSending, this`outbox
      ensures Valid()
      ensures hasQueued == Loaded(old(parked[0])).Some?
      ensures YardModel() == StartTimer(old(YardModel()).(dispatched := old(parked[1..])), now)
      ensures outbox == Ship(old(outbox), Loaded(old(parked[0])))
    {
      hasQueued := ReleaseParked();
      StartDispatchTimer(now);
    }

    method FlushParkedTrain(now: Time) returns (hasQueued: bool)
      requires Valid() && line != [] && TakesParked(YardModel())
      modifies this`dispatched, this`line, this`parked, this`timer, this`queue, this`queueSize, this`isSending, this`outbox
      ensures Valid()
      ensures var f := FlushYard(old(YardModel()), now);
              hasQueued == f.train.Some? && YardModel() == f.yard && outbox == Ship(old(outbox), f.train)
    {
      hasQueued := ReleaseParkedAndWait(now);
    }

    /** The current train leaves; the timer is restarted if other trains are parked. */
    method ReleaseCurrentAndWait(now: Time) returns (hasQueued: bool)
      requires Valid()
      modifies this`current, this`timer, this`queue, this`queueSize, this`isSending, this`outbox
      modifies train`buffer, train`passengers, train`minDebounce, train`minRetention, train`departure
      ensures Valid() && (train.buffer == old(train.buffer) || fresh(train.buffer))
      ensures hasQueued == Loaded(old(current)).Some?
      ensures var y := old(YardModel()).(train := if hasQueued then EmptyTrain(now) else old(current));
              YardModel() == if parked != [] then StartTimer(y, now) else y
      ensures outbox == Ship(old(outbox), Loaded(old(current)))
    {
      hasQueued := ReleaseCurrent(now);
      var any := AnyParked();
      if any {
        StartDispatchTimer(now);
      }
    }

    method FlushCurrentTrain(now: Time) returns (hasQueued: bool)
      requires Valid() && !TakesParked(YardModel())
      modifies this`current, this`timer, this`queue, this`queueSize, this`isSending, this`outbox
      modifies train`buffer, train`passengers, train`minDebounce, train`minRetention, train`departure
      ensures Valid() && (train.buffer == old(train.buffer) || fresh(train.buffer))
      ensures var f := FlushYard(old(YardModel()), now);
              hasQueued == f.train.Some? && YardModel() == f.yard && outbox == Ship(old(outbox), f.train)
    {
      hasQueued := ReleaseCurrentAndWait(now);
    }

    /** Whether a parked train leaves no later than the current one. */
    method IsParkedFirst() returns (b: bool)
      requires ParkedShown() && train.Shows(current)
      ensures b <==> TakesParked(YardModel())
      ensures b ==> line != []
    {
      b := AnyParked();
      if b {
        var first := FirstDeparture();
        b := first <= train.departure;
      }
    }

    /** The train that leaves first enters the queue; a parked train goes first on a tie. */
    method FlushOne(now: Time) returns (hasQueued: bool)
      requires Valid()
      modifies this`dispatched, this`line, this`parked, this`current, this`timer
      modifies this`queue, this`queueSize, this`isSending, this`outbox
      modifies train`buffer, train`passengers, train`minDebounce, train`minRetention, train`departure
      ensures Valid() && (train.buffer == old(train.buffer) || fresh(train.buffer))
      ensures var f := FlushYard(old(YardModel()), now);
              hasQueued == f.train.Some? && YardModel() == f.yard && outbox == Ship(old(outbox), f.train)
    {
      var parkedFirst := IsParkedFirst();
      if parkedFirst {
        hasQueued := FlushParkedTrain(now);
      } else {
        hasQueued := FlushCurrentTrain(now);
      }
    }

    /** The history records what is released, and when. */
    ghost method LogRelease(t: Option<Train>, now: Time)
      requires Valid()
      modifies this`released, this`clock
      ensures Valid() && released == Record(old(released), t, now) && clock == now
    {
      released, clock := Record(released, t, now), now;
    }

    /**
     Releases the train that leaves first; a parked train goes first on a tie. What `FlushTrains` changes is
     stated field by field; nothing else changes.
     */
    method Flush(now: Time) returns (hasQueued: bool)
      requires Valid()
      modifies this`dispatched, this`line, this`parked, this`current, this`timer
      modifies this`queue, this`queueSize, this`isSending, this`outbox, this`released, this`clock
      modifies train`buffer, train`passengers, train`minDebounce, train`minRetention, train`departure
      ensures Valid() && (train.buffer == old(train.buffer) || fresh(train.buffer))
      ensures var f := FlushYard(old(YardModel()), now);
              && hasQueued == f.train.Some? && clock == now
              && YardModel() == f.yard && outbox == Ship(old(outbox), f.train) && released == Record(old(released), f.train, now)
    {
      ghost var f := FlushYard(YardModel(), now);
      hasQueued := FlushOne(now);
      LogRelease(f.train, now);
    }

    /** The dispatch timer has expired. */
    method FlushCbk(now: Time)
      requires Valid() && timer.Armed? && timer.at <= now
      modifies this`dispatched, this`line, this`parked, this`current, this`timer
      modifies this`queue, this`queueSize, this`isSending, this`outbox, this`released, this`clock
      modifies train`buffer, train`passengers, train`minDebounce, train`minRetention, train`departure
      ensures Valid() && (train.buffer == old(train.buffer) || fresh(train.buffer))
      ensures var f := FlushYard(old(YardModel()).(timer := Idle), now);
              && clock == now
              && YardModel() == f.yard && outbox == Ship(old(outbox), f.train) && released == Record(old(released), f.train, now)
    {
      CancelDispatchTimer();
      var _ := Flush(now);
    }

    // -------------------------------------------------------------------------
    // The writer
    // -------------------------------------------------------------------------

    /** The front leaves the queue. */
    method PopFront()
      requires Valid()
      modifies this`queue, this`queueSize, this`isSending, this`outbox
      ensures Valid() && outbox == Complete(old(outbox))
    {
      if queue != [] {
        queueSize := queueSize - |queue[0].0.bytes|;
        queue := queue[1..];
        if queue == [] {
          isSending := false;
        }
      }
      outbox := Complete(outbox);
    }

    method UpdateLastDeparture(now: Time)
      requires Valid()
      modifies this`lastDeparture, this`completions, this`clock
      ensures Valid() && clock == now
      ensures lastDeparture == (if outbox.queue != [] then Some(now) else old(lastDeparture))
      ensures completions == (if outbox.queue != [] then old(completions) + [now] else old(completions))
    {
      clock := now;
      if queue != [] {
        lastDeparture := Some(now);
        completions := completions + [now];
      }
    }

    /** A write has succeeded: the front leaves the queue, the next entry is written. */
    method SendDone(now: Time)
      requires Valid()
      modifies this`queue, this`queueSize, this`isSending, this`lastDeparture, this`outbox, this`completions, this`clock
      ensures Valid()
      ensures Model() == WriteCompletes(Ticked(old(Model()), now), now)
    {
      UpdateLastDeparture(now);
      PopFront();
    }

    /** A failed write stops the writer; some failures drop the queue. */
    method StopWriter(drop: bool)
      requires Valid()
      modifies this`queue, this`queueSize, this`isSending, this`wasNotConnected, this`outbox
      ensures Valid() && outbox == Fail(old(outbox), drop)
    {
      if drop {
        queue, queueSize := [], 0;
      }
      wasNotConnected := true;
      isSending := false;
      outbox := Fail(outbox, drop);
    }

    /** Whether the queue is to be dropped; an aborted write blocks the endpoint. */
    method ReactToFailure(error: Failure, connected: bool, now: Time) returns (drop: bool)
      requires Valid()
      modifies this`sendingBlocked, this`clock
      ensures Valid() && clock == now && drop == DropsQueue(old(sendingBlocked), error, connected)
      ensures sendingBlocked == (old(sendingBlocked) || (error == Aborted && connected))
    {
      clock := now;
      drop := false;
      if connected {
        if error == BrokenPipe {
          drop := sendingBlocked;
        } else if error == NoPermission {
          drop := true;
        } else if error == Aborted {
          sendingBlocked := true;
        }
      }
    }

    /** A write has failed. */
    method SendFailed(error: Failure, connected: bool, now: Time)
      requires Valid()
      modifies this`queue, this`queueSize, this`isSending, this`wasNotConnected, this`sendingBlocked, this`outbox, this`clock
      ensures Valid()
      ensures Model() == WriteFails(Ticked(old(Model()), now), error, connected)
    {
      var drop := ReactToFailure(error, connected, now);
      StopWriter(drop);
    }

    /** Writing resumes with the front of the queue. */
    method ResumeWriter()
      requires Valid()
      modifies this`isSending, this`wasNotConnected, this`outbox
      ensures Valid() && outbox == Resume(old(outbox))
    {
      if wasNotConnected {
        wasNotConnected := false;
        if queue != [] {
          isSending := true;
        }
      }
      outbox := Resume(outbox);
    }

    /** The connection is there (again). */
    method ConnectCbk(now: Time)
      requires Valid()
      modifies this`isSending, this`wasNotConnected, this`outbox, this`clock
      ensures Valid()
      ensures Model() == Connected(Ticked(old(Model()), now))
    {
      Tick(now);
      if !sendingBlocked {
        ResumeWriter();
      }
    }

    /** The endpoint is stopped: unsent messages are deleted. */
    method StopEndpoint(now: Time)
      requires Valid()
      modifies this`queue, this`queueSize, this`sendingBlocked, this`outbox, this`clock
      ensures Valid()
      ensures Model() == StopSending(Ticked(old(Model()), now))
    {
      Tick(now);
      Block();
    }

    /** The endpoint is restarted: unsent messages are deleted, and writing waits for the next connect. */
    method Restart(now: Time)
      requires Valid()
      modifies this`queue, this`queueSize, this`isSending, this`wasNotConnected, this`outbox, this`clock
      ensures Valid()
      ensures Model() == Restarted(Ticked(old(Model()), now))
    {
      Tick(now);
      Drop();
    }

    /** The queue is emptied and the writer starts over. */
    method Drop()
      requires Valid()
      modifies this`queue, this`queueSize, this`isSending, this`wasNotConnected, this`outbox
      ensures Valid() && outbox == DropAll(old(outbox))
    {
      wasNotConnected := true;
      queue, queueSize := [], 0;
      isSending := false;
      outbox := DropAll(outbox);
    }

    /** Sending is blocked and the queue is emptied. */
    method Block()
      requires Valid()
      modifies this`queue, this`queueSize, this`sendingBlocked, this`outbox
      ensures Valid() && sendingBlocked && outbox == ClearQueue(old(outbox))
    {
      sendingBlocked := true;
      queue, queueSize := [], 0;
      outbox := ClearQueue(outbox);
    }
  }
}
