/**
 How a client endpoint gets its local port: from the ports configured for a service instance, from a
 port range configured for a range of remote ports, or, without such configuration, from the system.
 */
module ClientPorts {
  import opened Wrappers

  type Port = p: int | 0 <= p < 0x1_0000

  /** Stands for "no port"; also what an absent or inverted range is loaded as. */
  const ILLEGAL_PORT: Port := 0xFFFF

  /** The configuration of one client, for one of the two protocols. */
  datatype Client = Client(
    service: nat,
    instance: nat,
    specific: seq<Port>,
    lastSpecific: Port,
    remoteFirst: Port,
    remoteLast: Port,
    first: Port,
    last: Port,
    lastUsed: Port)

  /** 16-bit increment. */
  function Next(p: Port): Port {
    if p == 0xFFFF then 0 else p + 1
  }

  predicate Matches(c: Client, remote: Port) {
    remote != ILLEGAL_PORT && c.remoteFirst <= remote <= c.remoteLast
  }

  predicate InRange(c: Client, p: Port) {
    c.first <= p <= c.last
  }

  // ---------------------------------------------------------------------------
  // Port ranges
  // ---------------------------------------------------------------------------

  /** The first free port from `p` to `last`; no endpoint ever uses the illegal port. */
  function FirstFree(p: Port, last: Port, used: set<Port>): Option<Port>
    requires ILLEGAL_PORT !in used
    decreases 0x1_0000 - p
  {
    if p > last then None
    else if p !in used then Some(p)
    else FirstFree(p + 1, last, used)
  }

  /** Takes the first free port from `p` on, and remembers it. */
  function Take(c: Client, p: Port, used: set<Port>): (Option<Port>, Client)
    requires ILLEGAL_PORT !in used
  {
    var found := FirstFree(p, c.last, used);
    (found, if found.Some? then c.(lastUsed := found.value) else c)
  }

  /** Continues behind the port used last, if it lies in the range. */
  function Continue(c: Client, used: set<Port>): (Option<Port>, Client)
    requires ILLEGAL_PORT !in used
  {
    var next := Next(c.lastUsed);
    if c.lastUsed != ILLEGAL_PORT && InRange(c, c.lastUsed) then
      Take(c.(lastUsed := Next(next)), next, used)
    else if next == ILLEGAL_PORT then
      Take(c.(lastUsed := next), c.first, used)
    else
      (None, c.(lastUsed := next))
  }

  /** Starts from the beginning of the range. */
  function Restart(c: Client, used: set<Port>): (Option<Port>, Client)
    requires ILLEGAL_PORT !in used
  {
    Take(c, c.first, used)
  }

  function Probe(c: Client, used: set<Port>, again: bool): (Option<Port>, Client)
    requires ILLEGAL_PORT !in used
  {
    if again then Restart(c, used) else Continue(c, used)
  }

  /** One pass over the clients from the `i`-th on. */
  function Pass(cs: seq<Client>, i: nat, remote: Port, used: set<Port>, again: bool): (r: (Option<Port>, seq<Client>))
    requires ILLEGAL_PORT !in used && i <= |cs|
    ensures |r.1| == |cs|
    decreases |cs| - i
  {
    if i == |cs| then (None, cs)
    else if !Matches(cs[i], remote) then Pass(cs, i + 1, remote, used, again)
    else
      var (found, c) := Probe(cs[i], used, again);
      if found.Some? then (found, cs[i := c]) else Pass(cs[i := c], i + 1, remote, used, again)
  }

  function Reset(cs: seq<Client>, remote: Port): seq<Client> {
    seq(|cs|, i requires 0 <= i < |cs| => if Matches(cs[i], remote) then cs[i].(lastUsed := ILLEGAL_PORT) else cs[i])
  }

  datatype Choice = Choice(configured: bool, port: Port, clients: seq<Client>)

  predicate Configured(cs: seq<Client>, remote: Port) {
    exists i | 0 <= i < |cs| :: Matches(cs[i], remote)
  }

  function FindPort(cs: seq<Client>, remote: Port, used: set<Port>): Choice
    requires ILLEGAL_PORT !in used
  {
    var (found, after) := Pass(cs, 0, remote, used, false);
    if found.Some? then Choice(true, found.value, after) else
    var (second, last) := Pass(Reset(after, remote), 0, remote, used, true);
    if second.Some? then Choice(true, second.value, last)
    else Choice(Configured(cs, remote), ILLEGAL_PORT, last)
  }

  lemma {:induction false} FirstFreeIff(p: Port, last: Port, used: set<Port>)
    requires ILLEGAL_PORT !in used
    ensures match FirstFree(p, last, used)
            case Some(q) => p <= q <= last && q !in used && forall x: Port | p <= x < q :: x in used
            case None => last != ILLEGAL_PORT && forall x: Port | p <= x <= last :: x in used
    decreases 0x1_0000 - p
  {
    if p <= last && p in used {
      FirstFreeIff(p + 1, last, used);
    }
  }

  /** A port that may be given out for `remote`. */
  predicate Free(cs: seq<Client>, remote: Port, used: set<Port>, p: Port) {
    p !in used && exists i | 0 <= i < |cs| :: Matches(cs[i], remote) && InRange(cs[i], p)
  }

  /** Only the memory of ports used last differs. */
  predicate SameRanges(cs: seq<Client>, ds: seq<Client>) {
    |cs| == |ds| && forall i | 0 <= i < |cs| :: ds[i] == cs[i].(lastUsed := ds[i].lastUsed)
  }

  lemma ProbeIff(c: Client, used: set<Port>, again: bool)
    requires ILLEGAL_PORT !in used
    ensures var (found, d) := Probe(c, used, again);
            && d == c.(lastUsed := d.lastUsed)
            && (found.Some? ==> InRange(c, found.value) && found.value !in used)
            && (again && found.None? ==> forall p: Port | InRange(c, p) :: p in used)
  {
    FirstFreeIff(c.first, c.last, used);
    FirstFreeIff(Next(c.lastUsed), c.last, used);
  }

  lemma {:induction false} PassIff(cs: seq<Client>, i: nat, remote: Port, used: set<Port>, again: bool)
    requires ILLEGAL_PORT !in used && i <= |cs|
    ensures var (found, ds) := Pass(cs, i, remote, used, again);
            && SameRanges(cs, ds)
            && (found.Some? ==> Free(cs, remote, used, found.value))
            && (again && found.None? ==> forall j, p: Port | i <= j < |cs| && Matches(cs[j], remote) && InRange(cs[j], p) :: p in used)
    decreases |cs| - i
  {
    if i < |cs| && !Matches(cs[i], remote) {
      PassIff(cs, i + 1, remote, used, again);
    } else if i < |cs| {
      ProbeIff(cs[i], used, again);
      var (found, c) := Probe(cs[i], used, again);
      if found.None? {
        PassIff(cs[i := c], i + 1, remote, used, again);
      }
    }
  }

  lemma ResetKeeps(cs: seq<Client>, ds: seq<Client>, remote: Port)
    requires SameRanges(cs, ds)
    ensures SameRanges(cs, Reset(ds, remote))
  {
  }

  lemma FreeSame(cs: seq<Client>, ds: seq<Client>, remote: Port, used: set<Port>, p: Port)
    requires SameRanges(cs, ds)
    ensures Free(ds, remote, used, p) <==> Free(cs, remote, used, p)
  {
    if Free(cs, remote, used, p) {
      var i :| 0 <= i < |cs| && Matches(cs[i], remote) && InRange(cs[i], p);
      assert Matches(ds[i], remote) && InRange(ds[i], p);
    }
    if Free(ds, remote, used, p) {
      var i :| 0 <= i < |ds| && Matches(ds[i], remote) && InRange(ds[i], p);
      assert Matches(cs[i], remote) && InRange(cs[i], p);
    }
  }

  /** A port that is found is free, and if none is found at all, none is free. */
  lemma FindPortIff(cs: seq<Client>, remote: Port, used: set<Port>)
    requires ILLEGAL_PORT !in used
    ensures var r := FindPort(cs, remote, used);
            && SameRanges(cs, r.clients)
            && (r.configured <==> Configured(cs, remote))
            && (Free(cs, remote, used, r.port) || (r.port == ILLEGAL_PORT && forall p :: !Free(cs, remote, used, p)))
  {
    PassIff(cs, 0, remote, used, false);
    var (found, after) := Pass(cs, 0, remote, used, false);
    var again := Reset(after, remote);
    ResetKeeps(cs, after, remote);
    PassIff(again, 0, remote, used, true);
    forall p: Port
      ensures Free(again, remote, used, p) <==> Free(cs, remote, used, p)
    {
      FreeSame(cs, again, remote, used, p);
    }
  }

  /** The client is configured for this remote port; port 65535 is no remote port. */
  predicate ForRemote(c: Client, remote: Port) {
    c.remoteFirst <= remote && remote <= c.remoteLast && remote != 0xFFFF
  }

  /** The smallest free port of an interval. */
  predicate IsLowest(p: Port, first: int, last: Port, used: set<Port>) {
    first <= p <= last && p !in used && forall x: Port | first <= x < p :: x in used
  }

  /**
   What a continued search does with one client: behind the port used last, if that lies in the range, it takes the
   lowest free port; without one it moves the memory two ports on. Otherwise it moves the memory one port on,
   and takes the lowest free port of the range only where that runs into the last port.
   */
  lemma ContinueIff(c: Client, used: set<Port>)
    requires ILLEGAL_PORT !in used
    ensures var (found, d) := Continue(c, used);
            && d == c.(lastUsed := d.lastUsed) && (found.Some? ==> d.lastUsed == found.value)
            && if c.lastUsed != 0xFFFF && c.first <= c.lastUsed <= c.last then
                 && (found.Some? ==> IsLowest(found.value, c.lastUsed + 1, c.last, used))
                 && (found.None? ==> d.lastUsed == (c.lastUsed + 2) % 0x1_0000
                                     && forall x: Port | c.lastUsed < x <= c.last :: x in used)
               else if c.lastUsed == 0xFFFE then
                 && (found.Some? ==> IsLowest(found.value, c.first, c.last, used))
                 && (found.None? ==> d.lastUsed == 0xFFFF && forall x: Port | c.first <= x <= c.last :: x in used)
               else found.None? && d.lastUsed == (c.lastUsed + 1) % 0x1_0000
  {
    FirstFreeIff(c.first, c.last, used);
    FirstFreeIff(Next(c.lastUsed), c.last, used);
  }

  /** A search from the beginning of a range takes its lowest free port, and changes nothing without one. */
  lemma RestartIff(c: Client, used: set<Port>)
    requires ILLEGAL_PORT !in used
    ensures var (found, d) := Restart(c, used);
            && (found.Some? ==> IsLowest(found.value, c.first, c.last, used) && d == c.(lastUsed := found.value))
            && (found.None? ==> d == c && forall x: Port | c.first <= x <= c.last :: x in used)
  {
    FirstFreeIff(c.first, c.last, used);
  }

  /** A pass stops at the first client that finds a port, and has asked those before it that serve the remote port. */
  predicate StopsAt(cs: seq<Client>, i: nat, remote: Port, used: set<Port>, again: bool, k: nat)
    requires ILLEGAL_PORT !in used
  {
    && i <= k < |cs| && ForRemote(cs[k], remote) && Probe(cs[k], used, again).0.Some?
    && forall j | i <= j < k && ForRemote(cs[j], remote) :: Probe(cs[j], used, again).0.None?
  }

  lemma {:induction false} PassStopsAt(cs: seq<Client>, i: nat, remote: Port, used: set<Port>, again: bool, k: nat)
    requires ILLEGAL_PORT !in used && StopsAt(cs, i, remote, used, again, k)
    ensures var (found, ds) := Pass(cs, i, remote, used, again);
            && found == Probe(cs[k], used, again).0
            && forall j | 0 <= j < |cs| ::
                 ds[j] == if i <= j <= k && ForRemote(cs[j], remote) then Probe(cs[j], used, again).1 else cs[j]
    decreases k - i
  {
    if i < k {
      if ForRemote(cs[i], remote) {
        var ds := cs[i := Probe(cs[i], used, again).1];
        assert forall j | i < j < |cs| :: ds[j] == cs[j];
        PassStopsAt(ds, i + 1, remote, used, again, k);
      } else {
        PassStopsAt(cs, i + 1, remote, used, again, k);
      }
    }
  }

  lemma {:induction false} PassStopsNowhere(cs: seq<Client>, i: nat, remote: Port, used: set<Port>, again: bool)
    requires ILLEGAL_PORT !in used && i <= |cs|
    requires forall j | i <= j < |cs| && ForRemote(cs[j], remote) :: Probe(cs[j], used, again).0.None?
    ensures var (found, ds) := Pass(cs, i, remote, used, again);
            && found == None
            && forall j | 0 <= j < |cs| ::
                 ds[j] == if i <= j && ForRemote(cs[j], remote) then Probe(cs[j], used, again).1 else cs[j]
    decreases |cs| - i
  {
    if i < |cs| {
      if ForRemote(cs[i], remote) {
        var ds := cs[i := Probe(cs[i], used, again).1];
        assert forall j | i < j < |cs| :: ds[j] == cs[j];
        PassStopsNowhere(ds, i + 1, remote, used, again);
      } else {
        PassStopsNowhere(cs, i + 1, remote, used, again);
      }
    }
  }

  /**
   The whole search: if, continuing, some client that serves the remote port finds a port, the first such client
   decides; otherwise all of them forget what they used last, and the first of them that has a free port
   gives its lowest. Clients for other remote ports are never changed.
   */
  lemma FindPortDecides(cs: seq<Client>, remote: Port, used: set<Port>, k: nat)
    requires ILLEGAL_PORT !in used && k < |cs|
    ensures StopsAt(cs, 0, remote, used, false, k) ==>
              FindPort(cs, remote, used).port == Continue(cs[k], used).0.value
    ensures (forall j | 0 <= j < |cs| && ForRemote(cs[j], remote) :: Continue(cs[j], used).0.None?)
            && StopsAt(cs, 0, remote, used, true, k) ==>
              && FindPort(cs, remote, used).port == Restart(cs[k], used).0.value
              && forall j | 0 <= j < |cs| && ForRemote(cs[j], remote) ::
                   FindPort(cs, remote, used).clients[j].lastUsed == if j == k then FindPort(cs, remote, used).port else 0xFFFF
  {
    if StopsAt(cs, 0, remote, used, false, k) {
      PassStopsAt(cs, 0, remote, used, false, k);
    } else if (forall j | 0 <= j < |cs| && ForRemote(cs[j], remote) :: Continue(cs[j], used).0.None?)
              && StopsAt(cs, 0, remote, used, true, k) {
      PassStopsNowhere(cs, 0, remote, used, false);
      AgainSame(cs, remote, used);
      var again := Reset(Pass(cs, 0, remote, used, false).1, remote);
      PassStopsAt(again, 0, remote, used, true, k);
    }
  }

  /** What the second pass works on: the same ranges, and nothing remembered. */
  lemma AgainSame(cs: seq<Client>, remote: Port, used: set<Port>)
    requires ILLEGAL_PORT !in used
    ensures var again := Reset(Pass(cs, 0, remote, used, false).1, remote);
            && SameRanges(cs, again)
            && forall j | 0 <= j < |cs| && ForRemote(cs[j], remote) ::
                 again[j].lastUsed == 0xFFFF && forall b: bool | b :: Probe(again[j], used, b).0 == Probe(cs[j], used, b).0
  {
    PassIff(cs, 0, remote, used, false);
    ResetKeeps(cs, Pass(cs, 0, remote, used, false).1, remote);
  }

  /** The search is for one remote port only; without a client for it, nothing is found or changed. */
  lemma FindPortKeepsOthers(cs: seq<Client>, remote: Port, used: set<Port>)
    requires ILLEGAL_PORT !in used
    ensures var r := FindPort(cs, remote, used);
            && |r.clients| == |cs| && (r.configured <==> exists i | 0 <= i < |cs| :: ForRemote(cs[i], remote))
            && (forall i | 0 <= i < |cs| && !ForRemote(cs[i], remote) :: r.clients[i] == cs[i])
            && (!r.configured ==> r.port == 0xFFFF)
  {
    FindPortIff(cs, remote, used);
    PassKeepsOthers(cs, 0, remote, used, false);
    var again := Reset(Pass(cs, 0, remote, used, false).1, remote);
    PassKeepsOthers(again, 0, remote, used, true);
    assert forall i | 0 <= i < |cs| :: Matches(cs[i], remote) <==> ForRemote(cs[i], remote);
    assert !Configured(cs, remote) ==> !Free(cs, remote, used, FindPort(cs, remote, used).port);
  }

  lemma {:induction false} PassKeepsOthers(cs: seq<Client>, i: nat, remote: Port, used: set<Port>, again: bool)
    requires ILLEGAL_PORT !in used && i <= |cs|
    ensures forall j | 0 <= j < |cs| && !ForRemote(cs[j], remote) :: Pass(cs, i, remote, used, again).1[j] == cs[j]
    decreases |cs| - i
  {
    if i < |cs| && !Matches(cs[i], remote) {
      PassKeepsOthers(cs, i + 1, remote, used, again);
    } else if i < |cs| {
      PassKeepsOthers(cs[i := Probe(cs[i], used, again).1], i + 1, remote, used, again);
    }
  }

  /** The search finds a port whenever there is one to give out. */
  predicate Finds(cs: seq<Client>, remote: Port, used: set<Port>)
    requires ILLEGAL_PORT !in used
  {
    (exists p: Port :: p != ILLEGAL_PORT && Free(cs, remote, used, p)) ==> FindPort(cs, remote, used).port != ILLEGAL_PORT
  }

  // ---------------------------------------------------------------------------
  // Which searches are complete
  // ---------------------------------------------------------------------------

  /** A configuration as it is loaded: no port has been used yet. */
  predicate Loaded(cs: seq<Client>) {
    forall c <- cs :: c.lastUsed == ILLEGAL_PORT
  }

  predicate Plausible(calls: seq<set<Port>>) {
    forall used <- calls :: ILLEGAL_PORT !in used
  }

  /** The memory after a sequence of searches for one remote port, each with its own set of used ports. */
  function After(cs: seq<Client>, remote: Port, calls: seq<set<Port>>): seq<Client>
    requires Plausible(calls)
  {
    if calls == [] then cs
    else FindPort(After(cs, remote, calls[..|calls| - 1]), remote, calls[|calls| - 1]).clients
  }

  predicate OpenEnded(c: Client, remote: Port) {
    Matches(c, remote) && c.last == ILLEGAL_PORT
  }

  predicate HasOpenEnd(cs: seq<Client>, remote: Port) {
    exists i | 0 <= i < |cs| :: OpenEnded(cs[i], remote)
  }

  /** The first range for this remote port that ends with the illegal port, if there is one. */
  function FirstOpen(cs: seq<Client>, remote: Port): (j: nat)
    ensures j <= |cs| && (j < |cs| ==> OpenEnded(cs[j], remote)) && forall i | 0 <= i < j :: !OpenEnded(cs[i], remote)
  {
    if cs == [] || OpenEnded(cs[0], remote) then 0 else 1 + FirstOpen(cs[1..], remote)
  }

  /** One of the first `n` ranges for this remote port holds the port. */
  predicate Within(cs: seq<Client>, n: nat, remote: Port, p: Port)
    requires n <= |cs|
  {
    exists i | 0 <= i < n :: Matches(cs[i], remote) && InRange(cs[i], p)
  }

  /** Every legal port lies in a range before the first one that ends with the illegal port. */
  predicate Covered(cs: seq<Client>, remote: Port) {
    forall p: Port | p != ILLEGAL_PORT && Within(cs, |cs|, remote, p) :: Within(cs, FirstOpen(cs, remote), remote, p)
  }

  /** From the `j`-th range on nothing has been used. */
  predicate Untouched(cs: seq<Client>, j: nat, remote: Port) {
    forall k | j <= k < |cs| && Matches(cs[k], remote) :: cs[k].lastUsed == ILLEGAL_PORT
  }

  predicate Closed(cs: seq<Client>, j: nat, remote: Port) {
    j <= |cs| && forall i | 0 <= i < j :: !OpenEnded(cs[i], remote)
  }

  /** The first pass only finds ports of the ranges before the untouched ones. */
  lemma {:induction false} FirstPass(cs: seq<Client>, i: nat, j: nat, remote: Port, used: set<Port>)
    requires ILLEGAL_PORT !in used && i <= |cs| && Closed(cs, j, remote) && Untouched(cs, j, remote)
    ensures var (found, ds) := Pass(cs, i, remote, used, false);
            found.Some? ==> found.value != ILLEGAL_PORT && Untouched(ds, j, remote)
    decreases |cs| - i
  {
    if i < |cs| && !Matches(cs[i], remote) {
      FirstPass(cs, i + 1, j, remote, used);
    } else if i < j {
      ProbeIff(cs[i], used, false);
      var (found, c) := Probe(cs[i], used, false);
      if found.None? {
        FirstPass(cs[i := c], i + 1, j, remote, used);
      }
    } else if i < |cs| {
      NothingBehind(cs, i, remote, used);
    }
  }

  /** A pass that continues finds nothing in untouched ranges. */
  lemma {:induction false} NothingBehind(cs: seq<Client>, i: nat, remote: Port, used: set<Port>)
    requires ILLEGAL_PORT !in used && i <= |cs| && Untouched(cs, i, remote)
    ensures Pass(cs, i, remote, used, false).0 == None
    decreases |cs| - i
  {
    if i < |cs| && !Matches(cs[i], remote) {
      NothingBehind(cs, i + 1, remote, used);
    } else if i < |cs| {
      NothingBehind(cs[i := cs[i].(lastUsed := 0)], i + 1, remote, used);
    }
  }

  /** All ports of the first `n` ranges are used. */
  predicate Full(cs: seq<Client>, n: nat, remote: Port, used: set<Port>)
    requires n <= |cs|
  {
    forall p: Port | Within(cs, n, remote, p) :: p in used
  }

  lemma FullMore(cs: seq<Client>, i: nat, remote: Port, used: set<Port>)
    requires i < |cs| && Full(cs, i, remote, used)
    requires Matches(cs[i], remote) ==> forall p: Port | InRange(cs[i], p) :: p in used
    ensures Full(cs, i + 1, remote, used)
  {
  }

  lemma FullLess(cs: seq<Client>, i: nat, j: nat, remote: Port, used: set<Port>)
    requires j <= i <= |cs| && Full(cs, i, remote, used)
    ensures Full(cs, j, remote, used)
  {
    forall p: Port | Within(cs, j, remote, p)
      ensures p in used
    {
      assert Within(cs, i, remote, p);
    }
  }

  /** The second pass finds a legal port in a range before the first open-ended one, or all of those are full. */
  lemma {:induction false} SecondPass(cs: seq<Client>, i: nat, remote: Port, used: set<Port>)
    requires ILLEGAL_PORT !in used && i <= |cs| && Full(cs, i, remote, used)
    requires Covered(cs, remote) && Untouched(cs, 0, remote)
    ensures var (found, ds) := Pass(cs, i, remote, used, true);
            && Untouched(ds, FirstOpen(cs, remote), remote)
            && (found.None? || found.value == ILLEGAL_PORT ==> Full(cs, FirstOpen(cs, remote), remote, used))
    decreases |cs| - i
  {
    var j := FirstOpen(cs, remote);
    if i == |cs| {
      FullLess(cs, i, j, remote, used);
    } else if !Matches(cs[i], remote) {
      SecondPass(cs, i + 1, remote, used);
    } else {
      ProbeIff(cs[i], used, true);
      var (found, c) := Probe(cs[i], used, true);
      if found.None? {
        FullMore(cs, i, remote, used);
        assert cs[i := c] == cs;
        SecondPass(cs, i + 1, remote, used);
      } else if j <= i {
        FullLess(cs, i, j, remote, used);
        assert Within(cs, |cs|, remote, found.value);
      }
    }
  }

  lemma SameCoverage(cs: seq<Client>, ds: seq<Client>, remote: Port)
    requires SameRanges(cs, ds)
    ensures FirstOpen(ds, remote) == FirstOpen(cs, remote)
    ensures forall n, p: Port | 0 <= n <= |cs| :: Within(ds, n, remote, p) <==> Within(cs, n, remote, p)
    ensures Covered(ds, remote) <==> Covered(cs, remote)
  {
    forall i | 0 <= i < |cs|
      ensures OpenEnded(ds[i], remote) <==> OpenEnded(cs[i], remote)
    {
      assert ds[i] == cs[i].(lastUsed := ds[i].lastUsed);
    }
    forall n, p: Port | 0 <= n <= |cs|
      ensures Within(ds, n, remote, p) <==> Within(cs, n, remote, p)
    {
      assert forall i | 0 <= i < n :: Matches(ds[i], remote) && InRange(ds[i], p) <==> Matches(cs[i], remote) && InRange(cs[i], p);
    }
  }

  /** A search over covered ranges finds a free legal port if there is one, and touches no range behind them. */
  lemma CoveredSearch(cs: seq<Client>, remote: Port, used: set<Port>)
    requires ILLEGAL_PORT !in used && Covered(cs, remote) && Untouched(cs, FirstOpen(cs, remote), remote)
    ensures Finds(cs, remote, used)
    ensures Untouched(FindPort(cs, remote, used).clients, FirstOpen(cs, remote), remote)
  {
    var j := FirstOpen(cs, remote);
    FirstPass(cs, 0, j, remote, used);
    PassIff(cs, 0, remote, used, false);
    var (found, after) := Pass(cs, 0, remote, used, false);
    if found.None? {
      var again := Reset(after, remote);
      ResetKeeps(cs, after, remote);
      SameCoverage(cs, again, remote);
      SecondPass(again, 0, remote, used);
      forall p: Port | p != ILLEGAL_PORT && Full(again, j, remote, used)
        ensures !Free(cs, remote, used, p)
      {
        assert Within(cs, |cs|, remote, p) ==> Within(again, j, remote, p);
      }
    }
  }

  lemma {:induction false} CoveredRuns(cs: seq<Client>, remote: Port, calls: seq<set<Port>>)
    requires Loaded(cs) && Plausible(calls) && Covered(cs, remote)
    ensures SameRanges(cs, After(cs, remote, calls)) && Untouched(After(cs, remote, calls), FirstOpen(cs, remote), remote)
    decreases |calls|
  {
    if calls != [] {
      var before := After(cs, remote, calls[..|calls| - 1]);
      CoveredRuns(cs, remote, calls[..|calls| - 1]);
      SameCoverage(cs, before, remote);
      FindPortIff(before, remote, calls[|calls| - 1]);
      CoveredSearch(before, remote, calls[|calls| - 1]);
    }
  }

  predicate Other(x: Port, p: Port) {
    x != p && x != ILLEGAL_PORT
  }

  /** Every legal port but `p`. */
  function AllBut(p: Port): (used: set<Port>)
    ensures forall x: Port :: x in used <==> Other(x, p)
  {
    set x: Port | 0 <= x < 0x1_0000 && Other(x, p)
  }

  /** With only `p` free, a pass from the beginning of the ranges ends in the `j`-th, the first open-ended one. */
  lemma {:induction false} ReachesOpenEnd(cs: seq<Client>, i: nat, j: nat, remote: Port, p: Port)
    requires i <= j < |cs| && p != ILLEGAL_PORT && Closed(cs, j, remote) && OpenEnded(cs[j], remote)
    requires !Within(cs, j, remote, p)
    ensures var q: Port := if InRange(cs[j], p) then p else ILLEGAL_PORT;
            Pass(cs, i, remote, AllBut(p), true) == (Some(q), cs[j := cs[j].(lastUsed := q)])
    decreases j - i
  {
    FirstFreeIff(cs[i].first, cs[i].last, AllBut(p));
    if i == j {
      var q: Port := if InRange(cs[j], p) then p else ILLEGAL_PORT;
      assert p !in AllBut(p);
      assert FirstFree(cs[j].first, cs[j].last, AllBut(p)) == Some(q);
    } else if !Matches(cs[i], remote) {
      ReachesOpenEnd(cs, i + 1, j, remote, p);
    } else {
      assert !InRange(cs[i], p) && cs[i].last != ILLEGAL_PORT;
      assert cs[i := cs[i]] == cs;
      ReachesOpenEnd(cs, i + 1, j, remote, p);
    }
  }

  /** With only `p` free, a pass that continues behind `p` in the `j`-th range runs over its end. */
  lemma {:induction false} RunsOver(cs: seq<Client>, i: nat, j: nat, remote: Port, p: Port)
    requires i <= j < |cs| && OpenEnded(cs[j], remote) && InRange(cs[j], p) && p != ILLEGAL_PORT && cs[j].lastUsed == p
    requires forall k | i <= k < j && Matches(cs[k], remote) :: cs[k].lastUsed == ILLEGAL_PORT
    ensures Pass(cs, i, remote, AllBut(p), false).0 == Some(ILLEGAL_PORT)
    decreases j - i
  {
    if i == j {
      FirstFreeIff(p + 1, ILLEGAL_PORT, AllBut(p));
    } else if !Matches(cs[i], remote) {
      RunsOver(cs, i + 1, j, remote, p);
    } else {
      RunsOver(cs[i := cs[i].(lastUsed := 0)], i + 1, j, remote, p);
    }
  }

  /** The first search after loading, with only `p` free. */
  lemma FirstSearch(cs: seq<Client>, remote: Port, p: Port)
    requires Loaded(cs) && p != ILLEGAL_PORT && FirstOpen(cs, remote) < |cs| && !Within(cs, FirstOpen(cs, remote), remote, p)
    ensures var j := FirstOpen(cs, remote);
            var q: Port := if InRange(cs[j], p) then p else ILLEGAL_PORT;
            var r := FindPort(cs, remote, AllBut(p));
            && r.port == q && SameRanges(cs, r.clients) && r.clients[j].lastUsed == q
            && forall k | 0 <= k < j && Matches(cs[k], remote) :: r.clients[k].lastUsed == ILLEGAL_PORT
  {
    FindPortIff(cs, remote, AllBut(p));
    var again := LoadedSearch(cs, remote, AllBut(p));
    SameCoverage(cs, again, remote);
    ReachesOpenEnd(again, 0, FirstOpen(cs, remote), remote, p);
  }

  /** The first search after loading begins at the front of the ranges. */
  lemma LoadedSearch(cs: seq<Client>, remote: Port, used: set<Port>) returns (again: seq<Client>)
    requires Loaded(cs) && ILLEGAL_PORT !in used
    ensures SameRanges(cs, again) && forall k | 0 <= k < |cs| && Matches(cs[k], remote) :: again[k].lastUsed == ILLEGAL_PORT
    ensures var (found, last) := Pass(again, 0, remote, used, true);
            found.Some? ==> FindPort(cs, remote, used) == Choice(true, found.value, last)
  {
    NothingBehind(cs, 0, remote, used);
    PassIff(cs, 0, remote, used, false);
    again := Reset(Pass(cs, 0, remote, used, false).1, remote);
    ResetKeeps(cs, Pass(cs, 0, remote, used, false).1, remote);
  }

  /** The second one, with still only `p` free, continues behind `p`. */
  lemma SecondSearch(cs: seq<Client>, remote: Port, p: Port)
    requires Loaded(cs) && p != ILLEGAL_PORT && FirstOpen(cs, remote) < |cs| && !Within(cs, FirstOpen(cs, remote), remote, p)
    requires InRange(cs[FirstOpen(cs, remote)], p)
    ensures !Finds(FindPort(cs, remote, AllBut(p)).clients, remote, AllBut(p))
  {
    var j := FirstOpen(cs, remote);
    var ds := FindPort(cs, remote, AllBut(p)).clients;
    FirstSearch(cs, remote, p);
    assert ds[j] == cs[j].(lastUsed := p);
    assert forall k | 0 <= k < j && Matches(ds[k], remote) :: Matches(cs[k], remote);
    RunsOver(ds, 0, j, remote, p);
    assert Free(ds, remote, AllBut(p), p);
  }

  lemma AfterOne(cs: seq<Client>, remote: Port, used: set<Port>)
    requires ILLEGAL_PORT !in used
    ensures After(cs, remote, [used]) == FindPort(cs, remote, used).clients
  {
    assert [used][..0] == [] && After(cs, remote, []) == cs;
  }

  /** Wherever a legal port is not covered, one or two searches miss it. */
  lemma UncoveredMisses(cs: seq<Client>, remote: Port) returns (calls: seq<set<Port>>, used: set<Port>)
    requires Loaded(cs) && !Covered(cs, remote)
    ensures Plausible(calls) && |calls| <= 1 && ILLEGAL_PORT !in used
    ensures !Finds(After(cs, remote, calls), remote, used)
  {
    var j := FirstOpen(cs, remote);
    var p: Port :| p != ILLEGAL_PORT && Within(cs, |cs|, remote, p) && !Within(cs, j, remote, p);
    used := AllBut(p);
    if InRange(cs[j], p) {
      calls := [used];
      AfterOne(cs, remote, used);
      SecondSearch(cs, remote, p);
    } else {
      calls := [];
      FirstSearch(cs, remote, p);
      assert Free(cs, remote, used, p);
    }
  }

  /**
   For a configuration and a remote port: every search for it, after any searches for it since the
   configuration was loaded, finds a free legal port if there is one, if and only if every legal port
   lies in a range before the first range that ends with port 65535.
   */
  lemma FindPortCompleteIff(cs: seq<Client>, remote: Port)
    requires Loaded(cs)
    ensures (forall calls, used: set<Port> | Plausible(calls) && ILLEGAL_PORT !in used ::
               Finds(After(cs, remote, calls), remote, used))
            <==> Covered(cs, remote)
  {
    if Covered(cs, remote) {
      forall calls, used: set<Port> | Plausible(calls) && ILLEGAL_PORT !in used
        ensures Finds(After(cs, remote, calls), remote, used)
      {
        CoveredRuns(cs, remote, calls);
        SameCoverage(cs, After(cs, remote, calls), remote);
        CoveredSearch(After(cs, remote, calls), remote, used);
      }
    } else {
      var calls, used := UncoveredMisses(cs, remote);
      assert Plausible(calls) && ILLEGAL_PORT !in used && !Finds(After(cs, remote, calls), remote, used);
    }
  }

  // ---------------------------------------------------------------------------
  // Ports for one service instance
  // ---------------------------------------------------------------------------

  function IndexOf(s: seq<Port>, p: Port): (k: nat)
    ensures k <= |s| && (k < |s| ==> s[k] == p) && (p in s ==> k < |s|)
  {
    if s == [] || s[0] == p then 0 else 1 + IndexOf(s[1..], p)
  }

  /** The last port, if any, is one of the configured ports. */
  predicate Remembers(c: Client) {
    c.lastSpecific == ILLEGAL_PORT || c.lastSpecific in c.specific
  }

  /** Where the search begins: behind the last port, or at the front. */
  function SearchStart(c: Client): (k: nat)
    requires Remembers(c)
  {
    if c.lastSpecific == ILLEGAL_PORT then 0 else
    var k := IndexOf(c.specific, c.lastSpecific) + 1;
    if k < |c.specific| then k else 0
  }

  function FirstFreeAt(s: seq<Port>, k: nat, used: set<Port>): Option<Port>
    requires k <= |s|
    decreases |s| - k
  {
    if k == |s| then None
    else if s[k] !in used then Some(s[k])
    else FirstFreeAt(s, k + 1, used)
  }

  /** Takes the first free port from the start of the search on; forgets the last port if there is none. */
  function TakeSpecific(c: Client, used: set<Port>): (Option<Port>, Client)
    requires Remembers(c)
  {
    var found := FirstFreeAt(c.specific, SearchStart(c), used);
    (found, c.(lastSpecific := if found.Some? then found.value else ILLEGAL_PORT))
  }

  lemma {:induction false} FirstFreeAtIff(s: seq<Port>, k: nat, used: set<Port>)
    requires k <= |s|
    ensures match FirstFreeAt(s, k, used)
            case Some(p) => exists i | k <= i < |s| :: s[i] == p && p !in used && forall j | k <= j < i :: s[j] in used
            case None => forall i | k <= i < |s| :: s[i] in used
    decreases |s| - k
  {
    if k < |s| && s[k] in used {
      FirstFreeAtIff(s, k + 1, used);
    } else if k < |s| {
      assert s[k] == s[k];
    }
  }

  /** One call finds a port exactly if there is a free one behind the last; two calls find any free one. */
  lemma TakeSpecificIff(c: Client, used: set<Port>)
    requires Remembers(c)
    ensures var (found, d) := TakeSpecific(c, used);
            && Remembers(d)
            && (found.Some? <==> exists i | SearchStart(c) <= i < |c.specific| :: c.specific[i] !in used)
            && (found.Some? ==> found.value in c.specific && found.value !in used)
            && (found.None? ==> (TakeSpecific(d, used).0.Some? <==> exists p <- c.specific :: p !in used))
  {
    FirstFreeAtIff(c.specific, SearchStart(c), used);
    FirstFreeAtIff(c.specific, 0, used);
    var found := FirstFreeAt(c.specific, SearchStart(c), used);
    if found.Some? {
      var i :| SearchStart(c) <= i < |c.specific| && c.specific[i] == found.value;
      assert c.specific[i] !in used;
    }
    if FirstFreeAt(c.specific, 0, used).None? {
      assert forall p <- c.specific :: p in used;
    }
  }

  /** A single call can miss a free port: the one used last, when it is free again and the others are not. */
  lemma TakeSpecificMisses(c: Client)
    requires c.specific == [30001, 30002] && c.lastSpecific == 30001
    ensures TakeSpecific(c, {30002}).0.None? && c.specific[0] !in {30002}
  {
    assert IndexOf(c.specific, 30001) == 0;
    FirstFreeAtIff(c.specific, 1, {30002});
  }

  // ---------------------------------------------------------------------------
  // The choice
  // ---------------------------------------------------------------------------

  function FindClient(cs: seq<Client>, service: nat, instance: nat): (k: nat)
    ensures k <= |cs|
  {
    if cs == [] || (cs[0].service == service && cs[0].instance == instance) then 0
    else 1 + FindClient(cs[1..], service, instance)
  }

  predicate HasSpecific(cs: seq<Client>, k: nat) {
    k < |cs| && cs[k].specific != []
  }

  predicate AllRemember(cs: seq<Client>) {
    forall i | 0 <= i < |cs| :: Remembers(cs[i])
  }

  function FindSpecificPort(cs: seq<Client>, service: nat, instance: nat, used: set<Port>): Choice
    requires AllRemember(cs)
  {
    var k := FindClient(cs, service, instance);
    if !HasSpecific(cs, k) then Choice(false, ILLEGAL_PORT, cs) else
    var (found, c) := TakeSpecific(cs[k], used);
    Choice(true, if found.Some? then found.value else ILLEGAL_PORT, cs[k := c])
  }

  /** A port, 0 for "let the system choose", or the illegal port if all configured ports are in use. */
  function GetClientPort(cs: seq<Client>, service: nat, instance: nat, remote: Port, used: set<Port>): Choice
    requires AllRemember(cs) && ILLEGAL_PORT !in used
  {
    var specific := FindSpecificPort(cs, service, instance, used);
    if specific.port != ILLEGAL_PORT then specific else
    var generic := FindPort(specific.clients, remote, used);
    if generic.port != ILLEGAL_PORT then generic
    else if specific.configured || generic.configured then generic.(configured := true)
    else generic.(port := 0)
  }

  /** The first client that is configured for the service instance. */
  predicate IsFirst(cs: seq<Client>, k: nat, service: nat, instance: nat) {
    && k < |cs| && cs[k].service == service && cs[k].instance == instance
    && forall i | 0 <= i < k :: !(cs[i].service == service && cs[i].instance == instance)
  }

  lemma {:induction false} FindClientIff(cs: seq<Client>, service: nat, instance: nat)
    ensures var k := FindClient(cs, service, instance);
            && (k < |cs| ==> IsFirst(cs, k, service, instance))
            && (k == |cs| ==> forall i | 0 <= i < |cs| :: !(cs[i].service == service && cs[i].instance == instance))
            && forall i | IsFirst(cs, i, service, instance) :: i == k
    decreases |cs|
  {
    if cs != [] && !(cs[0].service == service && cs[0].instance == instance) {
      FindClientIff(cs[1..], service, instance);
      forall i: nat | IsFirst(cs, i, service, instance)
        ensures i == FindClient(cs, service, instance)
      {
        assert IsFirst(cs[1..], i - 1, service, instance);
      }
    }
  }

  /** The `i`-th configured port comes behind the one used last; all do if none was, or if that is the last one. */
  predicate Behind(c: Client, i: nat) {
    && i < |c.specific|
    && (c.lastSpecific == ILLEGAL_PORT || c.lastSpecific in c.specific[..i] || c.lastSpecific !in c.specific[..|c.specific| - 1])
  }

  /** The first free one of them. */
  predicate IsNext(c: Client, used: set<Port>, i: nat) {
    Behind(c, i) && c.specific[i] !in used && forall j | 0 <= j < i && Behind(c, j) :: c.specific[j] in used
  }

  lemma {:induction false} IndexOfIff(s: seq<Port>, p: Port, i: nat)
    requires i <= |s|
    ensures p in s[..i] <==> IndexOf(s, p) < i
    decreases |s|
  {
    if s != [] && s[0] != p && i > 0 {
      IndexOfIff(s[1..], p, i - 1);
      assert s[..i] == [s[0]] + s[1..][..i - 1];
    }
  }

  lemma SearchStartIff(c: Client, i: nat)
    requires Remembers(c) && i < |c.specific|
    ensures Behind(c, i) <==> SearchStart(c) <= i
  {
    IndexOfIff(c.specific, c.lastSpecific, i);
    IndexOfIff(c.specific, c.lastSpecific, |c.specific| - 1);
    IndexOfIff(c.specific, c.lastSpecific, |c.specific|);
    assert c.specific[..|c.specific|] == c.specific;
  }

  lemma TakesNext(c: Client, used: set<Port>, i: nat)
    requires Remembers(c) && IsNext(c, used, i)
    ensures TakeSpecific(c, used) == (Some(c.specific[i]), c.(lastSpecific := c.specific[i]))
  {
    FirstFreeAtIff(c.specific, SearchStart(c), used);
    forall j | 0 <= j < |c.specific|
      ensures Behind(c, j) <==> SearchStart(c) <= j
    {
      SearchStartIff(c, j);
    }
  }

  lemma TakesNone(c: Client, used: set<Port>)
    requires Remembers(c) && forall i: nat | IsNext(c, used, i) :: c.specific[i] == ILLEGAL_PORT
    ensures var (found, d) := TakeSpecific(c, used);
            (found == None || found == Some(ILLEGAL_PORT)) && d == c.(lastSpecific := ILLEGAL_PORT)
  {
    FirstFreeAtIff(c.specific, SearchStart(c), used);
    forall j | 0 <= j < |c.specific|
      ensures Behind(c, j) <==> SearchStart(c) <= j
    {
      SearchStartIff(c, j);
    }
    var found := TakeSpecific(c, used).0;
    if found.Some? {
      var i :| SearchStart(c) <= i < |c.specific| && c.specific[i] == found.value
               && forall j | SearchStart(c) <= j < i :: c.specific[j] in used;
      assert IsNext(c, used, i);
    }
  }

  /**
   Specific ports come first: if a port configured for the service instance, behind the one used last, is
   free, the first such port is returned and remembered, and nothing else changes. It does not matter
   what the ranges offer.
   */
  lemma SpecificComesFirst(cs: seq<Client>, service: nat, instance: nat, remote: Port, used: set<Port>, k: nat, i: nat)
    requires AllRemember(cs) && ILLEGAL_PORT !in used
    requires IsFirst(cs, k, service, instance) && IsNext(cs[k], used, i) && cs[k].specific[i] != ILLEGAL_PORT
    ensures var p := cs[k].specific[i];
            GetClientPort(cs, service, instance, remote, used) == Choice(true, p, cs[k := cs[k].(lastSpecific := p)])
  {
    FindClientIff(cs, service, instance);
    TakesNext(cs[k], used, i);
  }

  /** What the search for a specific port leaves when it finds none: the last port is forgotten. */
  function Forgets(cs: seq<Client>, k: nat): seq<Client>
    requires k < |cs|
  {
    cs[k := cs[k].(lastSpecific := ILLEGAL_PORT)]
  }

  /**
   Only if no specific port behind the last is free, or only the illegal one is the next, the ranges decide: then
   a port of a range is returned, or none if there is none to return.
   */
  lemma RangesComeSecond(cs: seq<Client>, service: nat, instance: nat, remote: Port, used: set<Port>, k: nat)
    requires AllRemember(cs) && ILLEGAL_PORT !in used && IsFirst(cs, k, service, instance) && cs[k].specific != []
    requires forall i: nat | IsNext(cs[k], used, i) :: cs[k].specific[i] == ILLEGAL_PORT
    ensures var r, g := GetClientPort(cs, service, instance, remote, used), FindPort(Forgets(cs, k), remote, used);
            r.port == g.port && r.clients == g.clients && r.configured
  {
    FindClientIff(cs, service, instance);
    TakesNone(cs[k], used);
    FindPortIff(Forgets(cs, k), remote, used);
  }

  /** Without specific ports the ranges decide; without ranges for the remote port, too, the system does. */
  lemma RangesOnly(cs: seq<Client>, service: nat, instance: nat, remote: Port, used: set<Port>)
    requires AllRemember(cs) && ILLEGAL_PORT !in used
    requires forall k: nat | IsFirst(cs, k, service, instance) :: cs[k].specific == []
    ensures var r, g := GetClientPort(cs, service, instance, remote, used), FindPort(cs, remote, used);
            r.clients == g.clients && r.port == if exists i | 0 <= i < |cs| :: ForRemote(cs[i], remote) then g.port else 0
  {
    FindClientIff(cs, service, instance);
    FindPortIff(cs, remote, used);
    var g := FindPort(cs, remote, used);
    assert !Configured(cs, remote) ==> !Free(cs, remote, used, g.port);
    assert forall i | 0 <= i < |cs| :: Matches(cs[i], remote) <==> ForRemote(cs[i], remote);
  }

  /** The configuration knows something about this service instance or remote port. */
  predicate Governs(cs: seq<Client>, service: nat, instance: nat, remote: Port) {
    HasSpecific(cs, FindClient(cs, service, instance)) || Configured(cs, remote)
  }

  lemma SpecificSound(cs: seq<Client>, service: nat, instance: nat, used: set<Port>)
    requires AllRemember(cs)
    ensures var r := FindSpecificPort(cs, service, instance, used);
            && AllRemember(r.clients)
            && (forall remote :: Configured(r.clients, remote) <==> Configured(cs, remote))
            && (forall remote, p :: Free(r.clients, remote, used, p) <==> Free(cs, remote, used, p))
            && (r.port != ILLEGAL_PORT ==> r.port !in used && r.port in cs[FindClient(cs, service, instance)].specific)
  {
    var k := FindClient(cs, service, instance);
    if HasSpecific(cs, k) {
      TakeSpecificIff(cs[k], used);
    }
    var ds := FindSpecificPort(cs, service, instance, used).clients;
    assert |ds| == |cs| && forall i | 0 <= i < |cs| :: ds[i] == cs[i].(lastSpecific := ds[i].lastSpecific);
    forall remote
      ensures Configured(ds, remote) <==> Configured(cs, remote)
    {
      assert forall i | 0 <= i < |cs| :: Matches(ds[i], remote) <==> Matches(cs[i], remote);
    }
    forall remote, p
      ensures Free(ds, remote, used, p) <==> Free(cs, remote, used, p)
    {
      assert forall i | 0 <= i < |cs| :: Matches(ds[i], remote) <==> Matches(cs[i], remote);
      assert forall i | 0 <= i < |cs| :: InRange(ds[i], p) <==> InRange(cs[i], p);
    }
  }

  /** Port 0, which stands for the system's choice, is itself among the configured ports. */
  predicate ConfiguresZero(cs: seq<Client>, service: nat, instance: nat, remote: Port) {
    var k := FindClient(cs, service, instance);
    (k < |cs| && 0 in cs[k].specific) || exists i | 0 <= i < |cs| :: Matches(cs[i], remote) && InRange(cs[i], 0)
  }

  /** All generic ports are used, as far as the search can tell. */
  predicate Exhausted(cs: seq<Client>, service: nat, instance: nat, remote: Port, used: set<Port>) {
    && Governs(cs, service, instance, remote)
    && (HasOpenEnd(cs, remote) || forall p: Port :: !Free(cs, remote, used, p))
  }

  /**
   What is chosen is never a port in use towards the same remote port: it is a free configured port,
   0 exactly without configuration (unless 0 itself is configured), or no port; in the last case there is
   configuration, and no generic port is free unless a range ends with the illegal port.
   */
  lemma GetClientPortSound(cs: seq<Client>, service: nat, instance: nat, remote: Port, used: set<Port>)
    requires AllRemember(cs) && ILLEGAL_PORT !in used
    ensures var r := GetClientPort(cs, service, instance, remote, used);
            var k := FindClient(cs, service, instance);
            && AllRemember(r.clients)
            && (!Governs(cs, service, instance, remote) ==> r.port == 0)
            && (r.port == 0 && !ConfiguresZero(cs, service, instance, remote) ==> !Governs(cs, service, instance, remote))
            && (Governs(cs, service, instance, remote) && r.port != ILLEGAL_PORT ==>
                  (HasSpecific(cs, k) && r.port in cs[k].specific && r.port !in used) || Free(cs, remote, used, r.port))
            && (r.port == ILLEGAL_PORT ==> Exhausted(cs, service, instance, remote, used))
  {
    SpecificSound(cs, service, instance, used);
    var specific := FindSpecificPort(cs, service, instance, used);
    FindPortIff(specific.clients, remote, used);
    var generic := FindPort(specific.clients, remote, used);
    assert AllRemember(generic.clients);
    assert !HasOpenEnd(cs, remote) ==> !Free(cs, remote, used, ILLEGAL_PORT);
  }

  /** Only what was used last differs. */
  predicate SameSetup(cs: seq<Client>, ds: seq<Client>) {
    |cs| == |ds| && forall i | 0 <= i < |cs| ::
      ds[i] == cs[i].(lastUsed := ds[i].lastUsed, lastSpecific := ds[i].lastSpecific)
  }

  lemma GetClientPortKeepsSetup(cs: seq<Client>, service: nat, instance: nat, remote: Port, used: set<Port>)
    requires AllRemember(cs) && ILLEGAL_PORT !in used
    ensures SameSetup(cs, GetClientPort(cs, service, instance, remote, used).clients)
  {
    var specific := FindSpecificPort(cs, service, instance, used);
    FindPortIff(specific.clients, remote, used);
  }

  lemma {:induction false} SameClient(cs: seq<Client>, ds: seq<Client>, service: nat, instance: nat)
    requires SameSetup(cs, ds)
    ensures FindClient(ds, service, instance) == FindClient(cs, service, instance)
    decreases |cs|
  {
    if cs != [] && !(cs[0].service == service && cs[0].instance == instance) {
      SameClient(cs[1..], ds[1..], service, instance);
    }
  }

  lemma SameExhausted(cs: seq<Client>, ds: seq<Client>, service: nat, instance: nat, remote: Port, used: set<Port>)
    requires SameSetup(cs, ds)
    ensures Exhausted(ds, service, instance, remote, used) <==> Exhausted(cs, service, instance, remote, used)
  {
    SameClient(cs, ds, service, instance);
    assert forall i | 0 <= i < |cs| :: Matches(ds[i], remote) <==> Matches(cs[i], remote);
    forall p: Port
      ensures Free(ds, remote, used, p) <==> Free(cs, remote, used, p)
    {
      assert forall i | 0 <= i < |cs| :: InRange(ds[i], p) <==> InRange(cs[i], p);
    }
  }

  /**
   A range of two ports, of which the search gives out the first: a second search, with that port in use,
   gives the other one, and so on in turn, whatever is recorded in between.
   */
  lemma SearchAlternates(c: Client, remote: Port)
    requires Matches(c, remote) && c.last == c.first + 1 && c.last < 0xFFFE && c.lastUsed == ILLEGAL_PORT
    ensures var p := c.first;
            var one := FindPort([c], remote, {});
            var two := FindPort(one.clients, remote, {p});
            var three := FindPort(two.clients, remote, {});
            var four := FindPort(three.clients, remote, {p});
            one.port == p && two.port == p + 1 && three.port == p && four.port == p + 1
  {
    var p := c.first;
    SearchFromStart(c, remote);
    var used := c.(lastUsed := p);
    SearchBehind(used, remote);
    SearchWraps(used.(lastUsed := p + 1), remote);
  }

  lemma PassOne(c: Client, remote: Port, used: set<Port>, again: bool)
    requires ILLEGAL_PORT !in used && Matches(c, remote)
    ensures Pass([c], 0, remote, used, again) == (Probe(c, used, again).0, [Probe(c, used, again).1])
  {
    var (found, d) := Probe(c, used, again);
    assert [c][0 := d] == [d];
    assert Pass([d], 1, remote, used, again) == (None, [d]);
  }

  lemma SearchFromStart(c: Client, remote: Port)
    requires Matches(c, remote) && c.first < c.last && c.lastUsed == ILLEGAL_PORT
    ensures FindPort([c], remote, {}) == Choice(true, c.first, [c.(lastUsed := c.first)])
  {
    var d := c.(lastUsed := 0);
    PassOne(c, remote, {}, false);
    PassOne(c, remote, {}, true);
    assert Reset([d], remote) == [c];
  }

  lemma SearchBehind(c: Client, remote: Port)
    requires Matches(c, remote) && c.last == c.first + 1 && c.last < 0xFFFE && c.lastUsed == c.first
    ensures FindPort([c], remote, {c.first}) == Choice(true, c.last, [c.(lastUsed := c.last)])
  {
    PassOne(c, remote, {c.first}, false);
  }

  lemma SearchWraps(c: Client, remote: Port)
    requires Matches(c, remote) && c.first < c.last < 0xFFFE && c.lastUsed == c.last
    ensures FindPort([c], remote, {}) == Choice(true, c.first, [c.(lastUsed := c.first)])
  {
    var d := c.(lastUsed := c.last + 2);
    PassOne(c, remote, {}, false);
    assert Reset([d], remote) == [c.(lastUsed := ILLEGAL_PORT)];
    PassOne(c.(lastUsed := ILLEGAL_PORT), remote, {}, true);
  }
}
