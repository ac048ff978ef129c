/**
 How a client endpoint connects, gives up and tries again.
 */
module Reconnect {
  import opened Bytes

  const DEFAULT_CONNECT_TIMEOUT: nat := 100
  const MAX_CONNECT_TIMEOUT: nat := 1600

  datatype State = Closed | Connecting | Connected | Established

  /**
   Since the count of failures was last reset, by a success or a restart, there were `failures` failed
   attempts and the retries `delays` were started; `restarts` lists the timers started by restarts.
   */
  datatype Connector = Connector(
    state: State,
    isOpen: bool,
    counter: nat,
    timeout: nat,
    failures: nat,
    delays: seq<nat>,
    restarts: seq<nat>)

  datatype Event =
    | Open(ok: bool, bound: bool)
    | Fail
    | Succeed
    | Abort
    | Stop
    | Restart
    | SetEstablished(on: bool)
    | SetConnected(on: bool)

  function Fresh(): Connector {
    Connector(Closed, false, 0, DEFAULT_CONNECT_TIMEOUT, 0, [], [])
  }

  predicate Unlimited(limit: nat) {
    limit == UINT32_MAX
  }

  /** The socket is closed; a new one, if any, is not open yet. */
  function Shutdown(c: Connector): Connector {
    c.(state := Closed, isOpen := false)
  }

  /** Without a limit failures are not counted. */
  function Count(limit: nat, c: Connector): Connector {
    if Unlimited(limit) then c else c.(counter := (c.counter + 1) % (UINT32_MAX + 1))
  }

  function StartRetry(c: Connector): Connector {
    c.(delays := c.delays + [c.timeout])
  }

  function BackOff(c: Connector): Connector {
    if c.timeout < MAX_CONNECT_TIMEOUT && c.counter > 30 then c.(timeout := 2 * c.timeout) else c
  }

  /** A connection attempt failed: try again later, unless it failed too often. */
  function FailedAttempt(limit: nat, c: Connector): Connector {
    var d := Count(limit, Shutdown(c)).(failures := c.failures + 1);
    BackOff(if Unlimited(limit) || limit >= d.counter then StartRetry(d) else d)
  }

  /** An attempt begins; without a socket, or without its local port, the state stays as it was. */
  function Attempt(c: Connector, ok: bool, bound: bool): Connector {
    if !ok then c
    else if !bound then c.(isOpen := true)
    else c.(state := Connecting, isOpen := true)
  }

  function Step(limit: nat, c: Connector, e: Event): Connector {
    match e
    case Open(ok, bound) => Attempt(c, ok, bound)
    case Fail => FailedAttempt(limit, c)
    case Succeed => c.(timeout := DEFAULT_CONNECT_TIMEOUT, counter := 0, failures := 0, delays := [])
    case Abort => Shutdown(c)
    case Stop => Shutdown(c).(timeout := DEFAULT_CONNECT_TIMEOUT)
    case Restart =>
      Shutdown(c).(state := Connecting, counter := 0, failures := 0, delays := [], restarts := c.restarts + [c.timeout])
    case SetEstablished(on) =>
      if !on then c.(state := Closed)
      else if c.state == Connecting then c
      else c.(state := if c.isOpen then Established else Closed)
    case SetConnected(on) =>
      c.(state := if on && c.isOpen then Connected else Closed)
  }

  function Run(limit: nat, es: seq<Event>): Connector {
    if es == [] then Fresh() else Step(limit, Run(limit, es[..|es| - 1]), es[|es| - 1])
  }

  // ---------------------------------------------------------------------------
  // Every run
  // ---------------------------------------------------------------------------

  /** The default, doubled at most four times. */
  predicate IsDelay(t: nat) {
    t == 100 || t == 200 || t == 400 || t == 800 || t == 1600
  }

  /** A usable state has an open socket, and no waiting time exceeds the maximum. */
  predicate Consistent(c: Connector) {
    && (c.state == Connected || c.state == Established ==> c.isOpen)
    && IsDelay(c.timeout) && forall d <- c.delays + c.restarts :: IsDelay(d)
  }

  lemma StepKeepsConsistent(limit: nat, c: Connector, e: Event)
    requires Consistent(c)
    ensures Consistent(Step(limit, c, e))
  {
    var d := Step(limit, c, e);
    assert forall t :: t in d.delays + d.restarts ==> t in c.delays + c.restarts || t == c.timeout;
  }

  lemma {:induction false} RunsStayConsistent(limit: nat, es: seq<Event>)
    ensures Consistent(Run(limit, es))
    decreases |es|
  {
    if es != [] {
      RunsStayConsistent(limit, es[..|es| - 1]);
      StepKeepsConsistent(limit, Run(limit, es[..|es| - 1]), es[|es| - 1]);
    }
  }

  /** There is an open socket from a successful opening until a failure, an abort, a stop or a restart. */
  function OpenBy(es: seq<Event>): bool {
    if es == [] then false else
    match es[|es| - 1]
    case Open(true, _) => true
    case Fail => false
    case Abort => false
    case Stop => false
    case Restart => false
    case _ => OpenBy(es[..|es| - 1])
  }

  lemma {:induction false} RunsOpen(limit: nat, es: seq<Event>)
    ensures Run(limit, es).isOpen == OpenBy(es)
    decreases |es|
  {
    if es != [] {
      RunsOpen(limit, es[..|es| - 1]);
    }
  }

  /** The endpoint connects from an attempt with an open and bound socket, or a restart, until it is told what became of
      it, or the socket is closed. */
  function StateAfter(e: Event, state: State, open: bool): State {
    match e
    case Open(true, true) => Connecting
    case Restart => Connecting
    case Fail => Closed
    case Abort => Closed
    case Stop => Closed
    case SetConnected(on) => if on && open then Connected else Closed
    case SetEstablished(on) => if on && state == Connecting then Connecting else if on && open then Established else Closed
    case _ => state
  }

  function StateBy(es: seq<Event>): State {
    if es == [] then Closed else StateAfter(es[|es| - 1], StateBy(es[..|es| - 1]), OpenBy(es[..|es| - 1]))
  }

  lemma {:induction false} RunsState(limit: nat, es: seq<Event>)
    ensures Run(limit, es).state == StateBy(es)
    decreases |es|
  {
    if es != [] {
      RunsState(limit, es[..|es| - 1]);
      RunsOpen(limit, es[..|es| - 1]);
      StateStep(limit, Run(limit, es[..|es| - 1]), es[|es| - 1]);
    }
  }

  lemma StateStep(limit: nat, c: Connector, e: Event)
    ensures Step(limit, c, e).state == StateAfter(e, c.state, c.isOpen)
  {
  }

  /** The waiting time is 100 ms after a success or a stop, and changes otherwise only where a counted failure doubles it. */
  lemma DelayIff(limit: nat, c: Connector, e: Event)
    ensures var d := Step(limit, c, e);
            d.timeout == match e
                         case Succeed => 100
                         case Stop => 100
                         case Fail => if c.timeout < 1600 && d.counter > 30 then 2 * c.timeout else c.timeout
                         case _ => c.timeout
    ensures e.Restart? ==> Step(limit, c, e).restarts == c.restarts + [c.timeout]
  {
  }

  /**
   In every run: the endpoint becomes connected exactly if it is told so and its socket is open, and
   established exactly if it is told so, its socket is open, and it is not connecting; while it is
   connecting, that it is established is ignored. Otherwise being told makes it closed.
   */
  lemma TellingIff(limit: nat, es: seq<Event>, on: bool)
    ensures var c := Run(limit, es);
            && Step(limit, c, SetConnected(on)).state == (if on && OpenBy(es) then Connected else Closed)
            && Step(limit, c, SetEstablished(on)).state ==
               (if on && c.state == Connecting then Connecting else if on && OpenBy(es) then Established else Closed)
  {
    RunsOpen(limit, es);
  }

  /** How many retries the failures since the last reset have led to: without a limit one each; otherwise at
      most the limit, until the 32-bit count of failures wraps around. */
  predicate Tallied(limit: nat, c: Connector) {
    if Unlimited(limit) then |c.delays| == c.failures
    else if c.failures <= UINT32_MAX then c.counter == c.failures && |c.delays| == Min(c.failures, limit)
    else |c.delays| > limit
  }

  lemma StepKeepsTallied(limit: nat, c: Connector, e: Event)
    requires limit <= UINT32_MAX && Tallied(limit, c)
    ensures Tallied(limit, Step(limit, c, e))
  {
  }

  lemma {:induction false} RunsTally(limit: nat, es: seq<Event>)
    requires limit <= UINT32_MAX
    ensures Tallied(limit, Run(limit, es))
    decreases |es|
  {
    if es != [] {
      RunsTally(limit, es[..|es| - 1]);
      StepKeepsTallied(limit, Run(limit, es[..|es| - 1]), es[|es| - 1]);
    }
  }

  /** In every run, with a limit: no more retries than the limit are started between two resets, if and only if
      there are fewer than 2^32 failures between them. */
  lemma RetriesWithinLimitIff(limit: nat, es: seq<Event>)
    requires limit < UINT32_MAX
    ensures |Run(limit, es).delays| <= limit <==> Run(limit, es).failures <= UINT32_MAX
  {
    RunsTally(limit, es);
  }

  // ---------------------------------------------------------------------------
  // A streak of failures
  // ---------------------------------------------------------------------------

  function Failures(limit: nat, n: nat): Connector {
    if n == 0 then Fresh() else FailedAttempt(limit, Failures(limit, n - 1))
  }

  /** The waiting time that follows `k` counted failures. */
  function Expected(k: nat): nat {
    if k <= 30 then 100 else if k == 31 then 200 else if k == 32 then 400 else if k == 33 then 800 else 1600
  }

  /** What one more failure does where failures are counted. */
  lemma CountedFailure(limit: nat, c: Connector)
    requires !Unlimited(limit) && c.counter < UINT32_MAX && c.timeout == Expected(c.counter)
    ensures var d := FailedAttempt(limit, c);
            && d.counter == c.counter + 1 && d.timeout == Expected(d.counter)
            && d.delays == if c.counter < limit then c.delays + [c.timeout] else c.delays
  {
    assert (c.counter + 1) % (UINT32_MAX + 1) == c.counter + 1;
  }

  /** What `n` failures in a row lead to where they are counted: `limit` retries, slower from the 32nd on. */
  lemma {:induction false} CountedStreak(limit: nat, n: nat)
    requires n <= UINT32_MAX && !Unlimited(limit)
    ensures var c := Failures(limit, n);
            && c.counter == n && |c.delays| == Min(n, limit) && c.timeout == Expected(n)
            && forall i | 0 <= i < |c.delays| :: c.delays[i] == Expected(i)
    decreases n
  {
    if n > 0 {
      CountedStreak(limit, n - 1);
      CountedFailure(limit, Failures(limit, n - 1));
    }
  }

  /** What `n` failures in a row lead to without a limit: as many retries, all at the same pace. */
  lemma {:induction false} UnlimitedStreak(limit: nat, n: nat)
    requires Unlimited(limit)
    ensures var c := Failures(limit, n);
            c.counter == 0 && |c.delays| == n && c.timeout == 100 && forall d <- c.delays :: d == 100
    decreases n
  {
    if n > 0 {
      UnlimitedStreak(limit, n - 1);
    }
  }

  /** Some retry in a streak of failures waits longer than the first. */
  ghost predicate BacksOff(limit: nat) {
    exists n: nat, i | n <= UINT32_MAX && 0 <= i < |Failures(limit, n).delays| :: Failures(limit, n).delays[i] > 100
  }

  /** Retries slow down after thirty failures exactly for limits above 31 that are not "unlimited". */
  lemma BacksOffIff(limit: nat)
    requires limit <= UINT32_MAX
    ensures BacksOff(limit) <==> 31 < limit < UINT32_MAX
  {
    if 31 < limit < UINT32_MAX {
      CountedStreak(limit, 32);
      assert Failures(limit, 32).delays[31] == 200;
    } else {
      forall n: nat, i | n <= UINT32_MAX && 0 <= i < |Failures(limit, n).delays|
        ensures Failures(limit, n).delays[i] == 100
      {
        if Unlimited(limit) {
          UnlimitedStreak(limit, n);
          assert Failures(limit, n).delays[i] in Failures(limit, n).delays;
        } else {
          CountedStreak(limit, n);
        }
      }
    }
  }

  // ---------------------------------------------------------------------------
  // The endpoint
  // ---------------------------------------------------------------------------

  class Endpoint {
    const limit: nat
    var state: State
    var isOpen: bool
    var counter: nat
    var timeout: nat
    ghost var failures: nat
    ghost var delays: seq<nat>
    ghost var restarts: seq<nat>

    ghost function Model(): Connector
      reads this
    {
      Connector(state, isOpen, counter, timeout, failures, delays, restarts)
    }

    /** Usable only with an open socket, waiting times in bounds, and retries tallied. */
    ghost predicate Valid()
      reads this
    {
      limit <= UINT32_MAX && Consistent(Model()) && Tallied(limit, Model())
    }

    constructor (limit: nat)
      requires limit <= UINT32_MAX
      ensures Valid() && Model() == Fresh() && this.limit == limit
    {
      this.limit := limit;
      state, isOpen, counter, timeout := Closed, false, 0, DEFAULT_CONNECT_TIMEOUT;
      failures, delays, restarts := 0, [], [];
    }

    method ShutdownAndCloseSocket()
      modifies this`state, this`isOpen
      ensures Model() == Shutdown(old(Model()))
    {
      isOpen := false;
      state := Closed;
    }

    /** Opens and binds a socket, as far as that goes, and begins to connect. */
    method Connect(ok: bool, bound: bool)
      requires Valid()
      modifies this`state, this`isOpen
      ensures Valid() && Model() == Step(limit, old(Model()), Open(ok, bound))
    {
      if ok {
        isOpen := true;
        if bound {
          state := Connecting;
        }
      }
    }

    /** A stop forgets that retries had slowed down, but not how many there were. */
    method Stopped()
      requires Valid()
      modifies this`state, this`isOpen, this`timeout
      ensures Valid() && Model() == Step(limit, old(Model()), Event.Stop)
    {
      timeout := DEFAULT_CONNECT_TIMEOUT;
      ShutdownAndCloseSocket();
    }

    method StartConnectTimer()
      modifies this`delays
      ensures Model() == StartRetry(old(Model()))
    {
      delays := delays + [timeout];
    }

    /** Whether another attempt is allowed; counts it only if there is a limit. */
    method MayRetry() returns (ok: bool)
      modifies this`counter
      ensures Model() == Count(limit, old(Model())) && (ok <==> Unlimited(limit) || limit >= counter)
    {
      if limit == UINT32_MAX {
        return true;
      }
      counter := (counter + 1) % (UINT32_MAX + 1);
      return limit >= counter;
    }

    /** The connect handler, called with an error other than "aborted" or "already connected". */
    method ConnectFailed()
      requires Valid()
      modifies this
      ensures Valid() && Model() == Step(limit, old(Model()), Fail)
    {
      StepKeepsConsistent(limit, Model(), Fail);
      StepKeepsTallied(limit, Model(), Fail);
      ShutdownAndCloseSocket();
      var retry := MayRetry();
      failures := failures + 1;
      if retry {
        StartConnectTimer();
      }
      if timeout < MAX_CONNECT_TIMEOUT && counter > 30 {
        timeout := 2 * timeout;
      }
    }

    /** The connect handler, called without an error: the next failure is the first one again. */
    method ConnectSucceeded()
      requires Valid()
      modifies this
      ensures Valid() && Model() == Step(limit, old(Model()), Succeed)
    {
      timeout, counter := DEFAULT_CONNECT_TIMEOUT, 0;
      failures, delays := 0, [];
    }

    /** The endpoint is established, if it can be, or closed. */
    method EstablishedChanged(on: bool)
      requires Valid()
      modifies this`state
      ensures Valid() && Model() == Step(limit, old(Model()), SetEstablished(on))
    {
      if on {
        if state != Connecting {
          state := if isOpen then Established else Closed;
        }
      } else {
        state := Closed;
      }
    }

    /** The endpoint is connected, if it can be, or closed. */
    method ConnectedChanged(on: bool)
      requires Valid()
      modifies this`state
      ensures Valid() && Model() == Step(limit, old(Model()), SetConnected(on))
    {
      state := if on && isOpen then Connected else Closed;
    }

    method Restarted()
      requires Valid()
      modifies this
      ensures Valid() && Model() == Step(limit, old(Model()), Event.Restart)
    {
      StepKeepsConsistent(limit, Model(), Event.Restart);
      ShutdownAndCloseSocket();
      state, counter := Connecting, 0;
      failures, delays, restarts := 0, [], restarts + [timeout];
    }
  }
}
