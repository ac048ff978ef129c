/**
 The local TCP client endpoint: one queue entry per accepted command, one write at a time.
 */
module LocalClients {
  import opened Bytes
  import opened Framing
  import LocalLink
  import opened TrainModel

  class LocalClient {
    const sizes: LocalLink.Sizes
    var isOpen: bool
    var queue: seq<Command>
    var queueSize: int
    var train: seq<byte>
    var isSending: bool
    var wasNotConnected: bool
    var sendingBlocked: bool
    ghost var inflight: nat
    ghost var accepted: seq<Command>
    ghost var sent: seq<Command>
    ghost var wire: seq<byte>

    /** Between two calls the train is empty. */
    ghost predicate Valid()
      reads this
    {
      train == []
    }

    ghost function Model(): LocalLink.Sender
      reads this
    {
      LocalLink.Sender(isOpen, queue, queueSize, isSending, wasNotConnected, sendingBlocked, inflight, accepted, sent, wire)
    }

    constructor (sizes: LocalLink.Sizes)
      ensures Valid() && Model() == LocalLink.Idle() && this.sizes == sizes
    {
      this.sizes, isOpen := sizes, false;
      queue, queueSize, train, isSending, wasNotConnected, sendingBlocked := [], 0, [], false, false, false;
      inflight, accepted, sent, wire := 0, [], [], [];
    }

    method CheckQueueLimit(size: nat) returns (ok: bool)
      ensures ok <==> sizes.queueLimit == UINT32_MAX || queueSize + size <= sizes.queueLimit
    {
      ok := sizes.queueLimit == UINT32_MAX || queueSize + size <= sizes.queueLimit;
    }

    /** Ends the current train if the next command does not fit into it any more. */
    method QueueTrainBuffer(size: nat)
      modifies this`queue, this`queueSize, this`train
      ensures if old(train) == [] || |old(train)| + size <= sizes.maxMessageSize
              then unchanged(`queue, `queueSize, `train)
              else queue == old(queue) + [old(train)] && queueSize == old(queueSize) + |old(train)| && train == []
    {
      if |train| + size > sizes.maxMessageSize && train != [] {
        queue, queueSize, train := queue + [train], queueSize + |train|, [];
      }
    }

    /** Hands the front of the queue to the socket, if it is open. */
    method SendQueued()
      requires queue != []
      modifies this`inflight, this`wire, this`wasNotConnected, this`isSending
      ensures Model() == LocalLink.WriteFront(old(Model()))
    {
      if isOpen {
        wire, inflight := wire + (START_TAG + queue[0] + END_TAG), inflight + 1;
      } else {
        wasNotConnected := true;
        isSending := false;
      }
    }

    method QueueTrain()
      modifies this`queue, this`queueSize, this`isSending, this`wasNotConnected, this`inflight, this`wire
      ensures var queued := old(Model()).(queue := old(queue) + [train], queueSize := old(queueSize) + |train|);
              Model() == if old(isSending) then queued else LocalLink.WriteFront(queued.(isSending := true))
    {
      queueSize := queueSize + |train|;
      queue := queue + [train];
      if !isSending && queue != [] {
        isSending := true;
        SendQueued();
      }
    }

    method Send(data: Command) returns (ok: bool)
      requires Valid()
      modifies this
      ensures Valid() && (ok <==> LocalLink.Accepts(sizes, old(Model()), data))
      ensures Model() == LocalLink.Send(sizes, old(Model()), data)
    {
      ok := CheckQueueLimit(|data|);
      if sendingBlocked || !ok {
        return false;
      }
      if sizes.maxMessageSize != UINT32_MAX && |data| > sizes.maxMessageSize {
        return false;
      }
      QueueTrainBuffer(|data|);
      train := train + data;
      accepted := accepted + [data];
      assert train == data;
      QueueTrain();
      train := [];
      return true;
    }

    /** The completion handler of a successful write. */
    method SendCbk()
      requires Valid() && inflight > 0
      modifies this
      ensures Valid() && Model() == LocalLink.SendDone(old(Model()))
    {
      inflight := inflight - 1;
      if |queue| > 0 {
        queueSize, sent := queueSize - |queue[0]|, sent + [queue[0]];
        queue := queue[1..];
        if queue == [] {
          isSending := false;
        } else {
          SendQueued();
        }
      }
    }

    /** A write has failed on a live connection: some errors close the socket, two of them drop the queue. */
    method LoseConnection(error: Failure)
      modifies this`isOpen, this`queue, this`queueSize, this`sendingBlocked
      ensures if error == NoPermission || (error == BrokenPipe && old(sendingBlocked))
              then queue == [] && queueSize == 0
              else unchanged(`queue, `queueSize)
      ensures sendingBlocked == (old(sendingBlocked) || error == Aborted)
      ensures isOpen == (old(isOpen) && (error == AddressRequired || error == OtherFailure))
    {
      if error == BrokenPipe || error == NotConnected || error == NoPermission {
        if error == NoPermission || (error == BrokenPipe && sendingBlocked) {
          queue, queueSize := [], 0;
        }
        isOpen := false;
      } else if error == Aborted {
        sendingBlocked := true;
        isOpen := false;
      }
    }

    /** The completion handler of a failed write. */
    method SendFailed(error: Failure, connected: bool)
      requires Valid() && inflight > 0
      modifies this`isOpen, this`queue, this`queueSize, this`isSending, this`wasNotConnected, this`sendingBlocked, this`inflight
      ensures Valid() && Model() == LocalLink.SendFailed(old(Model()), error, connected)
    {
      inflight := inflight - 1;
      if connected {
        LoseConnection(error);
      }
      wasNotConnected := true;
      isSending := false;
    }

    /** The connection is there (again). */
    method ConnectCbk()
      requires Valid()
      modifies this
      ensures Valid() && Model() == LocalLink.Resume(old(Model()))
    {
      if sendingBlocked {
        isOpen := false;
      } else if wasNotConnected {
        wasNotConnected := false;
        if queue != [] {
          isSending := true;
          SendQueued();
        }
      }
    }

    /** The peer has closed the connection: nothing is queued any more, and an unfinished write stays unfinished. */
    method ReceiveEof()
      requires Valid()
      modifies this
      ensures Valid() && Model() == LocalLink.EndOfStream(old(Model()))
      ensures LocalLink.Lively(old(Model())) ==> LocalLink.Lively(Model())
    {
      sendingBlocked := false;
      queue, queueSize := [], 0;
    }

    /** Everything is dropped; the sender is lively afterwards, whatever it was before. */
    method Restart()
      requires Valid()
      modifies this
      ensures Valid() && Model() == LocalLink.Restart(old(Model()))
      ensures LocalLink.Lively(Model())
    {
      sendingBlocked := false;
      queue, queueSize, isSending := [], 0, false;
      isOpen := false;
      wasNotConnected := true;
    }

    /** Opens a socket, if that is possible and there is none, for the connect that follows. */
    method Connect(ok: bool)
      requires Valid()
      modifies this`isOpen
      ensures Model() == old(Model()).(isOpen := old(isOpen) || ok)
    {
      if ok {
        isOpen := true;
      }
    }

    /** Sending is possible again. */
    method Start(ok: bool)
      requires Valid()
      modifies this`sendingBlocked, this`isOpen
      ensures Model() == old(Model()).(blocked := false, isOpen := old(isOpen) || ok)
      ensures LocalLink.Lively(old(Model())) ==> LocalLink.Lively(Model())
    {
      sendingBlocked := false;
      Connect(ok);
    }

    /** The first half of a stop: nothing is accepted any more, and the queue is kept to be written. */
    method Stop()
      requires Valid()
      modifies this`sendingBlocked
      ensures Model() == LocalLink.Stop(old(Model()))
      ensures LocalLink.Lively(old(Model())) ==> (LocalLink.Lively(Model()) <==> queue == [] || isSending)
    {
      sendingBlocked := true;
    }

    /** The second half, after the wait for the queue: the socket is closed, whatever is still queued. */
    method CloseSocket()
      requires Valid()
      modifies this`isOpen
      ensures Model() == old(Model()).(isOpen := false)
    {
      isOpen := false;
    }
  }
}
