/**
 The index of remote client endpoints: which endpoint serves which remote service instance, which
 endpoint can be shared, and which local ports are taken.
 */
module EndpointIndex {
  import opened ClientPorts
  import opened Wrappers

  type Address = nat
  type Handle = nat

  datatype Key = Key(service: nat, instance: nat, reliable: bool)
  datatype Definition = Definition(address: Address, port: Port, remotePort: Port)
  datatype Remote = Remote(address: Address, port: Port, reliable: bool)
  datatype Slot = Slot(remote: Remote, partition: nat)
  datatype Endpoint = Endpoint(remote: Remote, localPort: Port)

  /** The nested maps of the source, each flattened to one map; `endpoints` holds every endpoint ever made. */
  datatype Index = Index(
    info: map<Key, Definition>,
    services: map<Key, Handle>,
    clients: map<Slot, Handle>,
    instances: map<(nat, Handle), nat>,
    used: map<Remote, set<Port>>,
    endpoints: seq<Endpoint>,
    stopped: set<Handle>)

  /** The configured partition of a service instance. */
  type Partitions = (nat, nat) -> nat

  function Used(x: Index, r: Remote): set<Port> {
    if r in x.used then x.used[r] else {}
  }

  function SlotFor(ps: Partitions, k: Key, address: Address, port: Port): Slot {
    Slot(Remote(address, port, k.reliable), ps(k.service, k.instance))
  }

  /** Lets the service instance use endpoint `h`. */
  function Attach(x: Index, k: Key, h: Handle): Index {
    x.(services := x.services[k := h], instances := x.instances[(k.service, h) := k.instance])
  }

  /** The endpoint of a service instance, shared with others of its partition where possible. */
  function Find(ps: Partitions, x: Index, k: Key): (Option<Handle>, Index) {
    if k in x.services then (Some(x.services[k]), x)
    else if k !in x.info then (None, x)
    else
      var slot := SlotFor(ps, k, x.info[k].address, x.info[k].remotePort);
      if slot !in x.clients then (None, x)
      else (Some(x.clients[slot]), Attach(x, k, x.clients[slot]))
  }

  function Take(x: Index, r: Remote, p: Port): Index {
    x.(used := x.used[r := Used(x, r) + {p}])
  }

  function Release(x: Index, r: Remote, p: Port): Index {
    if r in x.used then x.(used := x.used[r := x.used[r] - {p}]) else x
  }

  /** A new endpoint with the given local port; none if there is no definition or no port. */
  function Create(ps: Partitions, x: Index, k: Key, local: Port): (Option<Handle>, Index) {
    if k !in x.info || x.info[k].port == ILLEGAL_PORT || local == ILLEGAL_PORT then (None, x) else
    var r := Remote(x.info[k].address, x.info[k].port, k.reliable);
    var h := |x.endpoints|;
    var y := Attach(Take(x, r, local), k, h);
    (Some(h), y.(clients := y.clients[Slot(r, ps(k.service, k.instance)) := h],
                 endpoints := y.endpoints + [Endpoint(r, local)]))
  }

  function FindOrCreate(ps: Partitions, x: Index, k: Key, local: Port): (Option<Handle>, Index) {
    var found := Find(ps, x, k);
    if found.0.Some? then found else Create(ps, x, k, local)
  }

  predicate InUse(services: map<Key, Handle>, h: Handle, reliable: bool) {
    exists k <- services :: k.reliable == reliable && services[k] == h
  }

  /** Stops an endpoint, which reports `reported` as its local port, and forgets it. */
  function StopEndpoint(ps: Partitions, x: Index, k: Key, h: Handle, reported: Port): (y: Index)
    requires h < |x.endpoints|
    ensures y.services == x.services && y.instances == x.instances && y.info == x.info && y.endpoints == x.endpoints
  {
    var r := x.endpoints[h].remote;
    var slot := Slot(r, ps(k.service, k.instance));
    var y := if slot in x.clients && x.clients[slot] == h then x.(clients := x.clients - {slot}) else x;
    Release(y, r, reported).(stopped := y.stopped + {h})
  }

  function Detach(x: Index, k: Key): Index
    requires k in x.services
  {
    x.(services := x.services - {k}, instances := x.instances - {(k.service, x.services[k])})
  }

  /** The service instance is gone: its endpoint is stopped unless another service instance uses it. */
  function Clear(ps: Partitions, x: Index, k: Key, reported: Port): Index
    requires forall j <- x.services :: x.services[j] < |x.endpoints|
  {
    if k !in x.services then x else
    var h := x.services[k];
    var y := Detach(x, k);
    if InUse(y.services, h, k.reliable) then y else StopEndpoint(ps, y, k, h, reported)
  }

  /** An endpoint could not bind its local port and gets another one. */
  function Rebind(x: Index, h: Handle, local: Port): Index
    requires h < |x.endpoints|
  {
    var e := x.endpoints[h];
    Release(x.(endpoints := x.endpoints[h := e.(localPort := local)]), e.remote, e.localPort)
  }

  function FindInstance(x: Index, service: nat, h: Handle): nat {
    if (service, h) in x.instances then x.instances[(service, h)] else 0xFFFF
  }

  // ---------------------------------------------------------------------------
  // Runs
  // ---------------------------------------------------------------------------

  datatype Event =
    | Offer(key: Key, definition: Definition)
    | OfferBoth(service: nat, instance: nat, tcp: Definition, udp: Definition)
    | Withdraw(key: Key)
    | Request(key: Key, local: Port)
    | Gone(key: Key, reported: Port)
    | BindError(handle: Handle, port: Port)

  function Empty(): Index {
    Index(map[], map[], map[], map[], map[], [], {})
  }

  predicate Live(x: Index, h: Handle) {
    h < |x.endpoints| && exists k <- x.services :: x.services[k] == h
  }

  /** A local port that the port search may return for this endpoint. */
  predicate Offered(x: Index, r: Remote, p: Port) {
    p == 0 || p !in Used(x, r)
  }

  /** What a stopped endpoint may report: its own port, or, if the system chose it, one that nobody else has. */
  predicate Reportable(x: Index, h: Handle, p: Port) {
    h < |x.endpoints| ==>
      var e := x.endpoints[h];
      if e.localPort != 0 then p == e.localPort
      else p == 0 || p !in Used(x, e.remote)
  }

  predicate Enabled(x: Index, e: Event) {
    match e
    case Offer(_, _) => true
    case OfferBoth(_, _, _, _) => true
    case Withdraw(_) => true
    case Request(k, p) => k in x.info ==> Offered(x, Remote(x.info[k].address, x.info[k].port, k.reliable), p)
    case Gone(k, p) =>
      && (forall j <- x.services :: x.services[j] < |x.endpoints|)
      && (k in x.services ==> Reportable(x, x.services[k], p))
    case BindError(h, p) => Live(x, h) && p != ILLEGAL_PORT && Offered(x, x.endpoints[h].remote, p)
  }

  function Step(ps: Partitions, x: Index, e: Event): Index
    requires Enabled(x, e)
  {
    match e
    case Offer(k, d) =>
      var y := x.(info := x.info[k := d]);
      if k.reliable then Find(ps, y, k).1 else y
    case OfferBoth(s, i, tcp, udp) =>
      var y := x.(info := x.info[Key(s, i, false) := udp][Key(s, i, true) := tcp]);
      Find(ps, Find(ps, y, Key(s, i, false)).1, Key(s, i, true)).1
    case Withdraw(k) => x.(info := x.info - {k})
    case Request(k, p) => FindOrCreate(ps, x, k, p).1
    case Gone(k, p) => Clear(ps, x, k, p)
    case BindError(h, p) => Rebind(x, h, p)
  }

  predicate Legal(ps: Partitions, es: seq<Event>)
    decreases |es|, 0
  {
    es == [] || (Legal(ps, es[..|es| - 1]) && Enabled(Run(ps, es[..|es| - 1]), es[|es| - 1]))
  }

  function Run(ps: Partitions, es: seq<Event>): Index
    requires Legal(ps, es)
    decreases |es|, 1
  {
    if es == [] then Empty() else Step(ps, Run(ps, es[..|es| - 1]), es[|es| - 1])
  }

  /** What is found: the endpoint of the service instance, or the one filed for its remote and its partition. */
  predicate Finds(ps: Partitions, x: Index, k: Key, h: Handle) {
    if k in x.services then h == x.services[k]
    else
      && k in x.info
      && var slot := Slot(Remote(x.info[k].address, x.info[k].remotePort, k.reliable), ps(k.service, k.instance));
         slot in x.clients && h == x.clients[slot]
  }

  lemma FindIff(ps: Partitions, x: Index, k: Key)
    ensures var (found, y) := Find(ps, x, k);
            && y.info == x.info && y.clients == x.clients
            && (forall h: Handle :: Finds(ps, x, k, h) <==> found == Some(h))
            && y.services == if found.Some? then x.services[k := found.value] else x.services
  {
  }

  /**
   An offer is recorded. A reliable one without an endpoint is attached to the endpoint that is filed for its
   remote address and port and its partition, if there is one; an unreliable one is not attached.
   */
  lemma OfferAttaches(ps: Partitions, x: Index, k: Key, d: Definition)
    ensures var y := Step(ps, x, Offer(k, d));
            var slot := Slot(Remote(d.address, d.remotePort, k.reliable), ps(k.service, k.instance));
            && k in y.info && y.info[k] == d
            && (if k.reliable && k !in x.services && slot in x.clients
                then y.services == x.services[k := x.clients[slot]]
                else y.services == x.services)
  {
  }

  /** Both offers of a service instance are recorded and attached, each to the endpoint of its own protocol. */
  lemma OfferBothAttaches(ps: Partitions, x: Index, s: nat, i: nat, tcp: Definition, udp: Definition)
    ensures var y := Step(ps, x, OfferBoth(s, i, tcp, udp));
            var told := x.(info := x.info[Key(s, i, false) := udp][Key(s, i, true) := tcp]);
            && y.info == told.info
            && forall reliable: bool, h: Handle ::
                 var k := Key(s, i, reliable);
                 Finds(ps, told, k, h) <==> k in y.services && y.services[k] == h
  {
    var told := x.(info := x.info[Key(s, i, false) := udp][Key(s, i, true) := tcp]);
    var first := Find(ps, told, Key(s, i, false)).1;
    FindIff(ps, told, Key(s, i, false));
    FindIff(ps, first, Key(s, i, true));
    assert forall h: Handle :: Finds(ps, first, Key(s, i, true), h) <==> Finds(ps, told, Key(s, i, true), h);
  }

  /** A stopped endpoint is the only one that leaves the files. */
  lemma StopForgets(ps: Partitions, x: Index, k: Key, h: Handle, reported: Port)
    requires h < |x.endpoints|
    ensures var y := StopEndpoint(ps, x, k, h, reported);
            && (forall s <- x.clients :: s !in y.clients ==> x.clients[s] == h)
            && (forall s <- y.clients :: s in x.clients && y.clients[s] == x.clients[s])
  {
  }

  /** A service instance that is gone leaves no endpoint but its own out of the files. */
  lemma ClearKeepsFiles(ps: Partitions, x: Index, k: Key, reported: Port)
    requires (forall j <- x.services :: x.services[j] < |x.endpoints|) && k in x.services
    ensures var y := Clear(ps, x, k, reported);
            && y.services == x.services - {k} && y.info == x.info
            && (forall s <- x.clients :: s !in y.clients ==> x.clients[s] == x.services[k])
            && (forall s <- y.clients :: s in x.clients && y.clients[s] == x.clients[s])
  {
    StopForgets(ps, Detach(x, k), k, x.services[k], reported);
  }

  /** A service instance that is gone takes its attribution with it, and no other. */
  lemma ClearForgets(ps: Partitions, x: Index, k: Key, reported: Port)
    requires (forall j <- x.services :: x.services[j] < |x.endpoints|) && k in x.services
    ensures var y, h := Clear(ps, x, k, reported), x.services[k];
            && FindInstance(y, k.service, h) == 0xFFFF
            && forall s: nat, g: Handle | (s, g) != (k.service, h) :: FindInstance(y, s, g) == FindInstance(x, s, g)
  {
    assert Clear(ps, x, k, reported).instances == x.instances - {(k.service, x.services[k])};
  }
}
