/**
 A local client endpoint, the byte stream it writes, and the connection that reads this stream.
 */
module LocalLink {
  import opened Bytes
  import opened Framing
  import opened Deframing
  import TrainModel

  datatype Sizes = Sizes(queueLimit: nat, maxMessageSize: nat)

  /**
   `wire` is everything handed to the socket so far, `sent` the commands whose writes have succeeded,
   `inflight` the number of unfinished writes, and `isOpen` says whether there is a socket to write to.
   */
  datatype Sender = Sender(
    isOpen: bool,
    queue: seq<Command>,
    queueSize: int,
    isSending: bool,
    wasNotConnected: bool,
    blocked: bool,
    inflight: nat,
    accepted: seq<Command>,
    sent: seq<Command>,
    wire: seq<byte>)

  function Idle(): Sender {
    Sender(false, [], 0, false, false, false, 0, [], [], [])
  }

  /** Hands the front of the queue to the socket, between its tags; without a socket it has to wait for the next connect. */
  function WriteFront(s: Sender): Sender
    requires s.queue != []
  {
    if s.isOpen then s.(wire := s.wire + Frame(s.queue[0]), inflight := s.inflight + 1)
    else s.(wasNotConnected := true, isSending := false)
  }

  predicate Accepts(k: Sizes, s: Sender, c: Command) {
    && !s.blocked
    && (k.queueLimit == UINT32_MAX || s.queueSize + |c| <= k.queueLimit)
    && (k.maxMessageSize == UINT32_MAX || |c| <= k.maxMessageSize)
  }

  function Send(k: Sizes, s: Sender, c: Command): Sender {
    if !Accepts(k, s, c) then s else
    var queued := s.(queue := s.queue + [c], queueSize := s.queueSize + |c|, accepted := s.accepted + [c]);
    if s.isSending then queued else WriteFront(queued.(isSending := true))
  }

  /** A write has ended. */
  function Ended(s: Sender): Sender {
    s.(inflight := if s.inflight > 0 then s.inflight - 1 else 0)
  }

  /** A write has succeeded. */
  function SendDone(s: Sender): Sender {
    if s.queue == [] then Ended(s) else
    var popped := Ended(s).(queue := s.queue[1..], queueSize := s.queueSize - |s.queue[0]|, sent := s.sent + [s.queue[0]]);
    if popped.queue == [] then popped.(isSending := false) else WriteFront(popped)
  }

  function Cleared(s: Sender): Sender {
    s.(queue := [], queueSize := 0)
  }

  /** Where a failed write closes the socket. */
  predicate Closes(error: TrainModel.Failure, connected: bool) {
    connected && !error.AddressRequired? && !error.OtherFailure?
  }

  /** A write has failed. */
  function SendFailed(s: Sender, error: TrainModel.Failure, connected: bool): Sender {
    var ended := if TrainModel.DropsQueue(s.blocked, error, connected) then Cleared(Ended(s)) else Ended(s);
    ended.(wasNotConnected := true, isSending := false,
           isOpen := s.isOpen && !Closes(error, connected),
           blocked := s.blocked || (error.Aborted? && connected))
  }

  /** The connection is there (again): writing resumes with the front of the queue, unless sending is blocked. */
  function Resume(s: Sender): Sender {
    if s.blocked then s.(isOpen := false)
    else if !s.wasNotConnected then s
    else if s.queue == [] then s.(wasNotConnected := false)
    else WriteFront(s.(wasNotConnected := false, isSending := true))
  }

  /** The peer has closed the connection: the queue is dropped. */
  function EndOfStream(s: Sender): Sender {
    Cleared(s).(blocked := false)
  }

  /** A restart: the queue is dropped and writing waits for the next connect. */
  function Restart(s: Sender): Sender {
    Cleared(s).(isOpen := false, blocked := false, isSending := false, wasNotConnected := true)
  }

  /** A stop refuses new commands; what is queued may still be written, until the socket is closed. */
  function Stop(s: Sender): Sender {
    s.(blocked := true)
  }

  // ---------------------------------------------------------------------------
  // The sending side
  // ---------------------------------------------------------------------------

  datatype Action =
    | Submitted(command: Command)
    | Written
    | Failed(error: TrainModel.Failure, connected: bool)
    | Opened
    | Connected
    | PeerClosed
    | Restarted
    | Stopped
    | Closed
    | Started

  function Act(k: Sizes, s: Sender, a: Action): Sender {
    match a
    case Submitted(c) => Send(k, s, c)
    case Written => SendDone(s)
    case Failed(error, connected) => SendFailed(s, error, connected)
    case Opened => s.(isOpen := true)
    case Connected => Resume(s)
    case PeerClosed => EndOfStream(s)
    case Restarted => Restart(s)
    case Stopped => Stop(s)
    case Closed => s.(isOpen := false)
    case Started => s.(blocked := false)
  }

  predicate Possible(s: Sender, a: Action) {
    a.Written? || a.Failed? ==> s.inflight > 0
  }

  function Acts(k: Sizes, s: Sender, actions: seq<Action>): Sender {
    if actions == [] then s else Act(k, Acts(k, s, actions[..|actions| - 1]), actions[|actions| - 1])
  }

  predicate AllPossible(k: Sizes, s: Sender, actions: seq<Action>) {
    actions == [] ||
    (AllPossible(k, s, actions[..|actions| - 1]) && Possible(Acts(k, s, actions[..|actions| - 1]), actions[|actions| - 1]))
  }

  function Total(cs: seq<Command>): nat {
    if cs == [] then 0 else |cs[0]| + Total(cs[1..])
  }

  lemma {:induction false} TotalAppend(cs: seq<Command>, c: Command)
    ensures Total(cs + [c]) == Total(cs) + |c|
    decreases |cs|
  {
    if cs == [] {
      assert [c][1..] == [];
    } else {
      TotalAppend(cs[1..], c);
      assert (cs + [c])[1..] == cs[1..] + [c];
    }
  }

  /** The queue size is what is queued, and the limit holds. */
  predicate Accounted(k: Sizes, s: Sender) {
    s.queueSize == Total(s.queue) && (k.queueLimit == UINT32_MAX || s.queueSize <= k.queueLimit)
  }

  lemma ActAccounts(k: Sizes, s: Sender, a: Action)
    requires Accounted(k, s)
    ensures Accounted(k, Act(k, s, a))
  {
    if a.Submitted? {
      TotalAppend(s.queue, a.command);
    }
  }

  /** In every run, failures, closed connections, restarts and stops included, the queue size is right and within its limit. */
  lemma {:induction false} SenderRunsAccount(k: Sizes, actions: seq<Action>)
    ensures Accounted(k, Acts(k, Idle(), actions))
    decreases |actions|
  {
    if actions != [] {
      SenderRunsAccount(k, actions[..|actions| - 1]);
      ActAccounts(k, Acts(k, Idle(), actions[..|actions| - 1]), actions[|actions| - 1]);
    }
  }

  /**
   An action that drops what is queued: the peer closes the connection, a restart, a write that fails on a
   live connection for lack of permission, or one that finds its pipe broken while the sender is blocked.
   */
  predicate Drops(s: Sender, a: Action) {
    match a
    case PeerClosed => true
    case Restarted => true
    case Failed(error, connected) => connected && (error.NoPermission? || (error.BrokenPipe? && s.blocked))
    case _ => false
  }

  /** What is queued is dropped, and not sent, if and only if the action is one of those. */
  lemma DropsIff(k: Sizes, s: Sender, a: Action)
    requires s.queue != []
    ensures Drops(s, a) <==> Act(k, s, a).queue == [] && Act(k, s, a).sent == s.sent
  {
  }

  lemma ActKeepsCommands(k: Sizes, s: Sender, a: Action)
    requires s.accepted == s.sent + s.queue && !Drops(s, a)
    ensures Act(k, s, a).accepted == Act(k, s, a).sent + Act(k, s, a).queue
  {
    if a.Submitted? && Accepts(k, s, a.command) {
      Assoc(s.sent, s.queue, [a.command]);
    } else if a.Written? && s.queue != [] {
      assert s.queue == [s.queue[0]] + s.queue[1..];
      Assoc(s.sent, [s.queue[0]], s.queue[1..]);
    }
  }

  /** As long as no action drops the queue, the accepted commands are those sent followed by those queued. */
  lemma {:induction false} RunsKeepCommands(k: Sizes, actions: seq<Action>)
    requires forall n | 0 <= n < |actions| :: !Drops(Acts(k, Idle(), actions[..n]), actions[n])
    ensures var s := Acts(k, Idle(), actions); s.accepted == s.sent + s.queue
    decreases |actions|
  {
    if actions != [] {
      var last := |actions| - 1;
      assert forall n | 0 <= n < last :: actions[..last][..n] == actions[..n];
      RunsKeepCommands(k, actions[..last]);
      ActKeepsCommands(k, Acts(k, Idle(), actions[..last]), actions[last]);
    }
  }

  /** Sending is blocked after a stop or an aborted write on a live connection, until a start, a restart or the end of
      the stream. */
  function BlockedBy(actions: seq<Action>): bool {
    if actions == [] then false else
    match actions[|actions| - 1]
    case Stopped => true
    case Failed(Aborted, true) => true
    case Started => false
    case Restarted => false
    case PeerClosed => false
    case _ => BlockedBy(actions[..|actions| - 1])
  }

  lemma {:induction false} RunsBlock(k: Sizes, actions: seq<Action>)
    ensures Acts(k, Idle(), actions).blocked == BlockedBy(actions)
    decreases |actions|
  {
    if actions != [] {
      RunsBlock(k, actions[..|actions| - 1]);
    }
  }

  /** There is a socket once one is opened, until it is closed by a stop, a restart, a connect of a blocked
      sender, or a write that fails on a live connection for a reason that concerns the connection. */
  function OpenAfter(a: Action, open: bool, blocked: bool): bool {
    match a
    case Opened => true
    case Closed => false
    case Restarted => false
    case Connected => open && !blocked
    case Failed(error, connected) => open && (!connected || error.AddressRequired? || error.OtherFailure?)
    case _ => open
  }

  lemma OpenAct(k: Sizes, s: Sender, a: Action)
    ensures Act(k, s, a).isOpen == OpenAfter(a, s.isOpen, s.blocked)
  {
  }

  function OpenBy(actions: seq<Action>): bool {
    if actions == [] then false else
    var before := actions[..|actions| - 1];
    OpenAfter(actions[|actions| - 1], OpenBy(before), BlockedBy(before))
  }

  lemma {:induction false} RunsOpen(k: Sizes, actions: seq<Action>)
    ensures Acts(k, Idle(), actions).isOpen == OpenBy(actions)
    decreases |actions|
  {
    if actions != [] {
      var before := actions[..|actions| - 1];
      RunsOpen(k, before);
      RunsBlock(k, before);
      OpenAct(k, Acts(k, Idle(), before), actions[|actions| - 1]);
    }
  }

  /** The front of the queue is due to be written: a command has been accepted by an idle sender, a write has
      succeeded and left something, or a connect finds a queue that waits for it. */
  predicate Turns(k: Sizes, s: Sender, a: Action) {
    match a
    case Submitted(c) => Accepts(k, s, c) && !s.isSending
    case Written => |s.queue| > 1
    case Connected => !s.blocked && s.wasNotConnected && s.queue != []
    case _ => false
  }

  /** The action leaves nobody at work: the last write has succeeded, or one has failed, or all was dropped in a restart. */
  predicate Halts(s: Sender, a: Action) {
    (a.Written? && |s.queue| == 1) || a.Failed? || a.Restarted?
  }

  /**
   What every action does to the writer. Exactly when the front of the queue is due it is handed to the socket, as
   one frame, if there is a socket; if there is none the queue waits for a connect.
   */
  lemma ActWritesIff(k: Sizes, s: Sender, a: Action)
    ensures var t := Act(k, s, a);
            && (Turns(k, s, a) && s.isOpen ==> t.queue != [] && t.wire == s.wire + Frame(t.queue[0]))
            && (!(Turns(k, s, a) && s.isOpen) ==> t.wire == s.wire)
            && (a.Submitted? || a.Connected? || (a.Written? && |s.queue| > 1) ==>
                  t.isSending == if Turns(k, s, a) then s.isOpen && (a.Written? ==> s.isSending) else s.isSending)
            && (Halts(s, a) ==> !t.isSending)
  {
  }

  /** The queue waits for a connect after a failed write, a restart, or a turn without a socket, until a connect of a
      sender that is not blocked. */
  lemma ActWaitsIff(k: Sizes, s: Sender, a: Action)
    ensures Act(k, s, a).wasNotConnected <==>
            || a.Failed? || a.Restarted?
            || (Turns(k, s, a) && !s.isOpen)
            || (s.wasNotConnected && !(a.Connected? && !s.blocked))
  {
  }

  /**
   In every run a command is accepted, behind all others, if and only if sending is not blocked, the bytes
   queued leave room for it and it is not too large; otherwise nothing changes.
   */
  lemma RunsAcceptIff(k: Sizes, actions: seq<Action>, c: Command)
    ensures var s, t := Acts(k, Idle(), actions), Acts(k, Idle(), actions + [Submitted(c)]);
            if && !BlockedBy(actions)
               && (k.queueLimit == UINT32_MAX || Total(s.queue) + |c| <= k.queueLimit)
               && (k.maxMessageSize == UINT32_MAX || |c| <= k.maxMessageSize)
            then t.accepted == s.accepted + [c] && t.queue == s.queue + [c]
            else t == s
  {
    SenderRunsAccount(k, actions);
    RunsBlock(k, actions);
    assert (actions + [Submitted(c)])[..|actions|] == actions;
  }

  /** A queued command is being written, or the next connect resumes writing. */
  predicate Lively(s: Sender) {
    && (s.queue != [] ==> s.isSending || (s.wasNotConnected && !s.blocked))
    && (s.isSending ==> s.inflight > 0)
  }

  /**
   A write ends well behind a dropped queue, or finds the socket closed for the next entry of a blocked
   sender; a write fails, blocks the sender or finds it blocked, and leaves a queue; a queue that waits
   for a connect is stopped.
   */
  predicate Strands(s: Sender, a: Action) {
    match a
    case Written =>
      || (s.queue == [] && s.isSending && s.inflight == 1)
      || (|s.queue| > 1 && s.blocked && !s.isOpen)
    case Failed(error, connected) =>
      s.queue != [] &&
      if connected then error.Aborted? || (s.blocked && !error.NoPermission? && !error.BrokenPipe?) else s.blocked
    case Stopped => s.queue != [] && !s.isSending
    case _ => false
  }

  lemma LivelyStepIff(k: Sizes, s: Sender, a: Action)
    requires Lively(s) && Possible(s, a)
    ensures Lively(Act(k, s, a)) <==> !Strands(s, a)
  {
  }

  predicate LivelyAfter(k: Sizes, actions: seq<Action>, n: nat) {
    n <= |actions| && Lively(Acts(k, Idle(), actions[..n]))
  }

  predicate StrandsAt(k: Sizes, actions: seq<Action>, n: nat) {
    n < |actions| && Strands(Acts(k, Idle(), actions[..n]), actions[n])
  }

  lemma {:induction false} PossiblePrefix(k: Sizes, s: Sender, actions: seq<Action>, n: nat)
    requires AllPossible(k, s, actions) && n < |actions|
    ensures Possible(Acts(k, s, actions[..n]), actions[n])
    decreases |actions|
  {
    var last := |actions| - 1;
    if n < last {
      PossiblePrefix(k, s, actions[..last], n);
      assert actions[..last][..n] == actions[..n];
    }
  }

  lemma StepLivelyIff(k: Sizes, actions: seq<Action>, n: nat)
    requires AllPossible(k, Idle(), actions) && n < |actions| && LivelyAfter(k, actions, n)
    ensures LivelyAfter(k, actions, n + 1) <==> !StrandsAt(k, actions, n)
  {
    PossiblePrefix(k, Idle(), actions, n);
    assert actions[..n + 1][..n] == actions[..n];
    LivelyStepIff(k, Acts(k, Idle(), actions[..n]), actions[n]);
  }

  lemma {:induction false} UnstrandedLively(k: Sizes, actions: seq<Action>, n: nat)
    requires AllPossible(k, Idle(), actions) && n <= |actions| && forall m | 0 <= m < n :: !StrandsAt(k, actions, m)
    ensures LivelyAfter(k, actions, n)
    decreases n
  {
    if n == 0 {
      assert actions[..0] == [];
    } else {
      UnstrandedLively(k, actions, n - 1);
      StepLivelyIff(k, actions, n - 1);
    }
  }

  /**
   Through a whole run no queued command is forgotten by the writer, if and only if no step of the run
   is one of those that strand it.
   */
  lemma SenderLivelyIff(k: Sizes, actions: seq<Action>)
    requires AllPossible(k, Idle(), actions)
    ensures (forall n | 0 <= n <= |actions| :: LivelyAfter(k, actions, n))
            <==> forall n | 0 <= n < |actions| :: !StrandsAt(k, actions, n)
  {
    if forall n | 0 <= n < |actions| :: !StrandsAt(k, actions, n) {
      forall n | 0 <= n <= |actions|
        ensures LivelyAfter(k, actions, n)
      {
        UnstrandedLively(k, actions, n);
      }
    }
    if forall n | 0 <= n <= |actions| :: LivelyAfter(k, actions, n) {
      forall n | 0 <= n < |actions|
        ensures !StrandsAt(k, actions, n)
      {
        assert LivelyAfter(k, actions, n) && LivelyAfter(k, actions, n + 1);
        StepLivelyIff(k, actions, n);
      }
    }
  }

  /** A writer at work has a write under way and something to write, and a queue without a writer waits for a connect. */
  predicate Busy(s: Sender) {
    && (s.isSending ==> s.queue != [] && s.inflight > 0)
    && (s.queue != [] ==> s.isSending || s.wasNotConnected)
  }

  lemma ActKeepsBusy(k: Sizes, s: Sender, a: Action)
    requires Busy(s) && Possible(s, a) && !a.PeerClosed?
    ensures Busy(Act(k, s, a))
  {
  }

  /**
   As long as the peer does not close the connection, through any failures, stops, starts and restarts,
   the writer is busy where it has to be, and the sender is lively whenever it is not blocked.
   */
  lemma {:induction false} OpenRunsLively(k: Sizes, actions: seq<Action>)
    requires AllPossible(k, Idle(), actions) && forall a <- actions :: !a.PeerClosed?
    ensures var s := Acts(k, Idle(), actions);
            Busy(s) && (!s.blocked ==> Lively(s))
    decreases |actions|
  {
    if actions != [] {
      var before := actions[..|actions| - 1];
      OpenRunsLively(k, before);
      ActKeepsBusy(k, Acts(k, Idle(), before), actions[|actions| - 1]);
    }
  }

  // ---------------------------------------------------------------------------
  // Blocked senders
  // ---------------------------------------------------------------------------

  /** The sender is blocked, holds commands, and no write is under way. */
  predicate Stranded(s: Sender) {
    s.blocked && s.queue != [] && !s.isSending && s.inflight == 0
  }

  /** Connects do not help a stranded sender: until a start, a restart or the end of the stream it writes nothing. */
  lemma {:induction false} StrandedUntilStart(k: Sizes, s: Sender, actions: seq<Action>)
    requires Stranded(s) && AllPossible(k, s, actions)
    requires forall a <- actions :: !a.Started? && !a.Restarted? && !a.PeerClosed?
    ensures var t := Acts(k, s, actions);
            Stranded(t) && t.queue == s.queue && t.wire == s.wire && t.accepted == s.accepted
    decreases |actions|
  {
    if actions != [] {
      StrandedUntilStart(k, s, actions[..|actions| - 1]);
    }
  }

  /** A stranded sender that waits for a connect is resumed by a start followed by a connect. */
  lemma StartResumes(s: Sender)
    requires Stranded(s) && s.wasNotConnected
    ensures var t := Resume(s.(blocked := false, isOpen := true));
            Lively(t) && t.isSending && t.queue == s.queue && t.wire == s.wire + Frame(s.queue[0])
  {
  }

  /** The sender after this many successful writes. */
  function Drained(s: Sender, writes: nat): Sender
    decreases writes
  {
    if writes == 0 then s else Drained(SendDone(s), writes - 1)
  }

  /** The wait of a stop is not in vain: as many successful writes as there are commands empty the queue onto the wire. */
  lemma {:induction false} StopDrains(s: Sender)
    requires s.isOpen && s.isSending && s.queue != []
    ensures var t := Drained(Stop(s), |s.queue|);
            t.queue == [] && !t.isSending && t.blocked && t.wire == s.wire + Stream(s.queue[1..])
    decreases |s.queue|
  {
    var next := SendDone(Stop(s));
    if |s.queue| > 1 {
      assert next.queue == s.queue[1..];
      StopDrains(next);
      assert Stop(next) == next;
      Assoc(s.wire, Frame(s.queue[1]), Stream(s.queue[1..][1..]));
    } else {
      assert Drained(next, 0) == next;
    }
  }

  // ---------------------------------------------------------------------------
  // Closed connections
  // ---------------------------------------------------------------------------

  /** The sender waits for the end of a write that does not exist. */
  predicate Stalled(s: Sender) {
    s.isSending && s.inflight == 0 && !s.wasNotConnected
  }

  /** Nothing but a restart helps a stalled sender: whatever else happens, nothing is written. */
  lemma {:induction false} StalledUntilRestart(k: Sizes, s: Sender, actions: seq<Action>)
    requires Stalled(s) && AllPossible(k, s, actions) && forall a <- actions :: !a.Restarted?
    ensures Stalled(Acts(k, s, actions)) && Acts(k, s, actions).wire == s.wire
    decreases |actions|
  {
    if actions != [] {
      StalledUntilRestart(k, s, actions[..|actions| - 1]);
    }
  }

  /**
   With a socket, one write is unfinished while there is something to write, and none otherwise; without
   one, what is queued waits for the connect.
   */
  predicate Alive(s: Sender) {
    && s.inflight == (if s.isSending then 1 else 0)
    && (if s.isOpen then (s.isSending <==> s.queue != []) && !s.wasNotConnected
        else !s.isSending && (s.queue != [] ==> s.wasNotConnected))
  }

  /** The peer closes the connection, and the unfinished write, if there is one, ends as `end` says. */
  function ClosedAndEnded(k: Sizes, s: Sender, end: Action): Sender {
    var closed := EndOfStream(s);
    if s.inflight > 0 then Act(k, closed, end) else closed
  }

  /** A closed connection stalls the sender if and only if a write was in progress and that write ends well. */
  lemma PeerClosedStallsIff(k: Sizes, s: Sender, end: Action)
    requires Alive(s) && s.isOpen && (end.Written? || end.Failed?)
    ensures Stalled(ClosedAndEnded(k, s, end)) <==> s.isSending && end.Written?
    ensures Lively(ClosedAndEnded(k, s, end)) <==> !(s.isSending && end.Written?)
    ensures Lively(Restart(ClosedAndEnded(k, s, end)))
  {
  }

  /** A command that is accepted before that write ends is taken for the written one and never written. */
  lemma PeerClosedLosesCommand(k: Sizes, s: Sender, c: Command)
    requires Alive(s) && s.isSending && Accepts(k, EndOfStream(s), c)
    ensures var after := SendDone(Send(k, EndOfStream(s), c));
            after.queue == [] && after.accepted == s.accepted + [c] && after.wire == s.wire
  {
  }

  lemma ActMore(k: Sizes, s: Sender, actions: seq<Action>, a: Action) returns (more: seq<Action>)
    requires AllPossible(k, s, actions) && Possible(Acts(k, s, actions), a)
    ensures AllPossible(k, s, more) && Acts(k, s, more) == Act(k, Acts(k, s, actions), a)
  {
    more := actions + [a];
    assert more[..|actions|] == actions;
  }

  lemma Connects(k: Sizes) returns (actions: seq<Action>)
    ensures AllPossible(k, Idle(), actions) && Acts(k, Idle(), actions) == Idle().(isOpen := true)
  {
    actions := ActMore(k, Idle(), [], Opened);
    actions := ActMore(k, Idle(), actions, Connected);
  }

  /** A stranded sender is reached from the start: its write is aborted while a second command is queued. */
  lemma StrandsFromStart(k: Sizes, c: Command, d: Command) returns (actions: seq<Action>)
    requires Accepts(k, Idle(), c) && Accepts(k, Send(k, Idle(), c), d)
    ensures AllPossible(k, Idle(), actions)
    ensures Stranded(Acts(k, Idle(), actions)) && Acts(k, Idle(), actions).queue == [c, d]
  {
    actions := Connects(k);
    actions := ActMore(k, Idle(), actions, Submitted(c));
    actions := ActMore(k, Idle(), actions, Submitted(d));
    actions := ActMore(k, Idle(), actions, Failed(TrainModel.Aborted, true));
  }

  /** A stalled sender that holds an accepted command is reached from the start, for all sizes that admit the commands. */
  lemma StallsFromStart(k: Sizes, c: Command, d: Command) returns (actions: seq<Action>)
    requires Accepts(k, Idle(), c) && Accepts(k, Idle(), d)
    ensures AllPossible(k, Idle(), actions)
    ensures Stalled(Acts(k, Idle(), actions)) && Acts(k, Idle(), actions).queue == [d]
  {
    actions := Connects(k);
    actions := ActMore(k, Idle(), actions, Submitted(c));
    actions := ActMore(k, Idle(), actions, PeerClosed);
    actions := ActMore(k, Idle(), actions, Written);
    actions := ActMore(k, Idle(), actions, Submitted(d));
  }

  // ---------------------------------------------------------------------------
  // Both sides
  // ---------------------------------------------------------------------------

  /** `pipe` is written and not read yet; `arrived` lists the reads. */
  datatype Link = Link(sender: Sender, pipe: seq<byte>, arrived: seq<seq<byte>>, reader: Reader)

  datatype Event = Submit(command: Command) | Connect | WriteDone | Arrive(count: nat)

  function Init(l: Limits): Link {
    Link(Idle(), [], [], Fresh(l))
  }

  /** The socket is opened and connected. */
  function Joins(s: Sender): Sender {
    Resume(s.(isOpen := true))
  }

  /** What the sender hands to the socket flows into the pipe. */
  function Flow(s: Link, sender: Sender): Link
    requires |s.sender.wire| <= |sender.wire|
  {
    s.(sender := sender, pipe := s.pipe + sender.wire[|s.sender.wire|..])
  }

  lemma WireGrows(k: Sizes, s: Sender, c: Command)
    ensures s.wire <= Send(k, s, c).wire && s.wire <= SendDone(s).wire && s.wire <= Joins(s).wire
  {
  }

  predicate Enabled(s: Link, e: Event) {
    match e
    case Submit(c) => WellFormed(c)
    case Connect => true
    case WriteDone => s.sender.inflight > 0
    case Arrive(n) => 0 < n <= |s.pipe|
  }

  function Step(k: Sizes, l: Limits, s: Link, e: Event): Link
    requires Enabled(s, e)
  {
    match e
    case Submit(c) => WireGrows(k, s.sender, c); Flow(s, Send(k, s.sender, c))
    case Connect => WireGrows(k, s.sender, []); Flow(s, Joins(s.sender))
    case WriteDone => WireGrows(k, s.sender, []); Flow(s, SendDone(s.sender))
    case Arrive(n) =>
      s.(pipe := s.pipe[n..], arrived := s.arrived + [s.pipe[..n]], reader := Round(l, s.reader, s.pipe[..n]))
  }

  predicate Legal(k: Sizes, l: Limits, es: seq<Event>)
    decreases |es|, 0
  {
    es == [] || (Legal(k, l, es[..|es| - 1]) && Enabled(Run(k, l, es[..|es| - 1]), es[|es| - 1]))
  }

  function Run(k: Sizes, l: Limits, es: seq<Event>): Link
    requires Legal(k, l, es)
    decreases |es|, 1
  {
    if es == [] then Init(l) else Step(k, l, Run(k, l, es[..|es| - 1]), es[|es| - 1])
  }

  /** The commands that are still waiting behind the one that is being written. */
  function Unwritten(s: Sender): seq<Command> {
    if s.isSending && s.queue != [] then s.queue[1..] else s.queue
  }

  /** The wire carries exactly the accepted commands that are not waiting, in order. */
  predicate InOrder(s: Sender, written: seq<Command>) {
    s.accepted == written + Unwritten(s) && s.wire == Stream(written)
  }

  lemma {:induction false} StreamAppend(cs: seq<Command>, c: Command)
    ensures Stream(cs + [c]) == Stream(cs) + Frame(c)
    decreases |cs|
  {
    if cs == [] {
      assert [c][1..] == [];
    } else {
      StreamAppend(cs[1..], c);
      assert (cs + [c])[1..] == cs[1..] + [c];
      Assoc(Frame(cs[0]), Stream(cs[1..]), Frame(c));
    }
  }

  lemma SendInOrder(k: Sizes, s: Sender, c: Command, written: seq<Command>) returns (more: seq<Command>)
    requires Alive(s) && InOrder(s, written)
    ensures InOrder(Send(k, s, c), more)
  {
    more := written;
    if Accepts(k, s, c) && s.isOpen && !s.isSending {
      more := written + [c];
      StreamAppend(written, c);
      assert s.queue + [c] == [c];
    } else if Accepts(k, s, c) && !s.isOpen {
      Assoc(written, s.queue, [c]);
    } else if Accepts(k, s, c) {
      assert (s.queue + [c])[1..] == s.queue[1..] + [c];
      Assoc(written, s.queue[1..], [c]);
    }
  }

  lemma SendDoneInOrder(s: Sender, written: seq<Command>) returns (more: seq<Command>)
    requires Alive(s) && s.inflight > 0 && InOrder(s, written)
    ensures InOrder(SendDone(s), more)
  {
    more := written;
    if |s.queue| > 1 {
      more := written + [s.queue[1]];
      StreamAppend(written, s.queue[1]);
      assert s.queue[1..] == [s.queue[1]] + s.queue[2..];
      Assoc(written, [s.queue[1]], s.queue[2..]);
      assert s.queue[1..][1..] == s.queue[2..];
    }
  }

  lemma JoinsInOrder(s: Sender, written: seq<Command>) returns (more: seq<Command>)
    requires Alive(s) && !s.blocked && InOrder(s, written)
    ensures InOrder(Joins(s), more)
  {
    more := written;
    if s.wasNotConnected && s.queue != [] {
      more := written + [s.queue[0]];
      StreamAppend(written, s.queue[0]);
      assert s.queue == [s.queue[0]] + s.queue[1..];
      Assoc(written, [s.queue[0]], s.queue[1..]);
    }
  }

  predicate Proper(k: Sizes, cs: seq<Command>) {
    forall c <- cs :: WellFormed(c) && (k.maxMessageSize == UINT32_MAX || |c| <= k.maxMessageSize)
  }

  /** What every reachable state of the sender keeps. */
  ghost predicate SoundSender(k: Sizes, s: Sender) {
    && Accounted(k, s) && Alive(s) && !s.blocked && Proper(k, s.accepted)
    && exists written :: InOrder(s, written)
  }

  /** What every reachable state keeps. */
  ghost predicate Sound(k: Sizes, l: Limits, s: Link) {
    && SoundSender(k, s.sender)
    && s.sender.wire == Joined(s.arrived) + s.pipe
    && s.reader == Rounds(l, s.arrived)
  }

  lemma SendKeepsSound(k: Sizes, s: Sender, c: Command)
    requires SoundSender(k, s) && WellFormed(c)
    ensures SoundSender(k, Send(k, s, c))
  {
    var written :| InOrder(s, written);
    var more := SendInOrder(k, s, c, written);
    ActAccounts(k, s, Submitted(c));
  }

  lemma SendDoneKeepsSound(k: Sizes, s: Sender)
    requires SoundSender(k, s) && s.inflight > 0
    ensures SoundSender(k, SendDone(s))
  {
    var written :| InOrder(s, written);
    var more := SendDoneInOrder(s, written);
  }

  lemma JoinsKeepsSound(k: Sizes, s: Sender)
    requires SoundSender(k, s)
    ensures SoundSender(k, Joins(s))
  {
    var written :| InOrder(s, written);
    var more := JoinsInOrder(s, written);
  }

  lemma FlowKeeps(s: Link, sender: Sender)
    requires s.sender.wire == Joined(s.arrived) + s.pipe && s.sender.wire <= sender.wire
    ensures sender.wire == Joined(s.arrived) + Flow(s, sender).pipe
  {
    var added := sender.wire[|s.sender.wire|..];
    assert sender.wire == s.sender.wire + added;
    Assoc(Joined(s.arrived), s.pipe, added);
  }

  lemma ArriveKeeps(k: Sizes, l: Limits, s: Link, n: nat)
    requires Sound(k, l, s) && 0 < n <= |s.pipe|
    ensures Sound(k, l, Step(k, l, s, Arrive(n)))
  {
    var data := s.pipe[..n];
    var arrived := s.arrived + [data];
    assert arrived[..|arrived| - 1] == s.arrived && arrived[|arrived| - 1] == data;
    assert s.pipe == data + s.pipe[n..];
    Assoc(Joined(s.arrived), data, s.pipe[n..]);
  }

  lemma {:induction false} RunsStaySound(k: Sizes, l: Limits, es: seq<Event>)
    requires Legal(k, l, es)
    ensures Sound(k, l, Run(k, l, es))
    decreases |es|
  {
    if es == [] {
      assert InOrder(Idle(), []);
    } else {
      var before := es[..|es| - 1];
      RunsStaySound(k, l, before);
      var s := Run(k, l, before);
      match es[|es| - 1]
      case Submit(c) =>
        SendKeepsSound(k, s.sender, c);
        WireGrows(k, s.sender, c);
        FlowKeeps(s, Send(k, s.sender, c));
      case Connect =>
        JoinsKeepsSound(k, s.sender);
        WireGrows(k, s.sender, []);
        FlowKeeps(s, Joins(s.sender));
      case WriteDone =>
        SendDoneKeepsSound(k, s.sender);
        WireGrows(k, s.sender, []);
        FlowKeeps(s, SendDone(s.sender));
      case Arrive(n) => ArriveKeeps(k, l, s, n);
    }
  }

  lemma SoundDelivers(k: Sizes, l: Limits, s: Link)
    requires Sound(k, l, s) && k.maxMessageSize == l.maxMessageSize
    ensures Admissible(l, s.sender.accepted)
    ensures Joined(s.arrived) <= Stream(s.sender.accepted)
    ensures s.sender.queue == [] && s.pipe == [] ==> Joined(s.arrived) == Stream(s.sender.accepted)
  {
    var written :| InOrder(s.sender, written);
    WholeConcat(written, Unwritten(s.sender), 0);
    if s.sender.queue == [] && s.pipe == [] {
      assert s.sender.accepted == written;
    }
  }

  /**
   End to end: in every run whose reads stop well, what has been delivered is a prefix of what was
   accepted, in order and without repetition, and all of it once queue and pipe are empty.
   */
  lemma DeliveredIsAccepted(k: Sizes, l: Limits, es: seq<Event>)
    requires Legal(k, l, es) && k.maxMessageSize == l.maxMessageSize
    requires var s := Run(k, l, es); AllGoodStops(s.sender.accepted, s.arrived)
    ensures var s := Run(k, l, es);
            && s.reader.verdict == Reading
            && s.reader.delivered <= s.sender.accepted
            && (s.sender.queue == [] && s.pipe == [] ==> s.reader.delivered == s.sender.accepted)
  {
    RunsStaySound(k, l, es);
    var s := Run(k, l, es);
    var cs := s.sender.accepted;
    SoundDelivers(k, l, s);
    GoodStopsFaithful(l, cs, s.arrived, |s.arrived|);
    assert s.arrived[..|s.arrived|] == s.arrived;
    WholeAll(cs);
  }

  /** A stop that finds a write under way, and lets the queue drain, has put every accepted command on the wire. */
  lemma StopWritesAll(k: Sizes, l: Limits, es: seq<Event>)
    requires Legal(k, l, es) && Run(k, l, es).sender.isSending
    ensures var s := Run(k, l, es).sender;
            Drained(Stop(s), |s.queue|).wire == Stream(s.accepted)
  {
    RunsStaySound(k, l, es);
    var s := Run(k, l, es).sender;
    var written :| InOrder(s, written);
    StopDrains(s);
    WholeConcat(written, s.queue[1..], 0);
  }
}
