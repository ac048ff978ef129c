/**
 What every run of the endpoint index keeps.
 */
module EndpointInvariants {
  import opened ClientPorts
  import opened EndpointIndex
  import opened Wrappers

  // ---------------------------------------------------------------------------
  // Endpoints and their users
  // ---------------------------------------------------------------------------

  /** The endpoint of a service instance is running and can be found by others of the same partition. */
  predicate Serves(ps: Partitions, x: Index, k: Key)
    requires k in x.services
  {
    var h := x.services[k];
    && h < |x.endpoints| && h !in x.stopped
    && x.endpoints[h].remote.reliable == k.reliable
    && var slot := Slot(x.endpoints[h].remote, ps(k.service, k.instance));
       slot in x.clients && x.clients[slot] == h
  }

  /** An endpoint that can be found has a user in that partition. */
  predicate Shared(ps: Partitions, x: Index, s: Slot)
    requires s in x.clients
  {
    var h := x.clients[s];
    && h < |x.endpoints| && x.endpoints[h].remote == s.remote
    && exists k <- x.services :: x.services[k] == h && ps(k.service, k.instance) == s.partition
  }

  /** No endpoint is filed twice. */
  predicate Distinct(clients: map<Slot, Handle>) {
    forall s <- clients, t <- clients :: clients[s] == clients[t] ==> s == t
  }

  lemma AddDistinct(clients: map<Slot, Handle>, s: Slot, h: Handle)
    requires Distinct(clients) && forall t <- clients :: clients[t] < h
    ensures Distinct(clients[s := h])
  {
  }

  predicate Linked(ps: Partitions, x: Index) {
    && (forall k <- x.services :: Serves(ps, x, k))
    && (forall s <- x.clients :: Shared(ps, x, s))
    && Distinct(x.clients)
    && (forall h <- x.stopped :: h < |x.endpoints|)
  }

  lemma AttachKeepsLinked(ps: Partitions, x: Index, k: Key, h: Handle)
    requires Linked(ps, x) && k !in x.services && h < |x.endpoints|
    requires var s := Slot(x.endpoints[h].remote, ps(k.service, k.instance)); s in x.clients && x.clients[s] == h
    requires x.endpoints[h].remote.reliable == k.reliable
    ensures Linked(ps, Attach(x, k, h))
  {
    var y := Attach(x, k, h);
    var s := Slot(x.endpoints[h].remote, ps(k.service, k.instance));
    assert Shared(ps, x, s);
    var j :| j in x.services && x.services[j] == h;
    assert Serves(ps, x, j);
    forall i | i in y.services
      ensures Serves(ps, y, i)
    {
      assert i != k ==> Serves(ps, x, i);
    }
    forall t | t in y.clients
      ensures Shared(ps, y, t)
    {
      assert Shared(ps, x, t);
      var u :| u in x.services && x.services[u] == x.clients[t] && ps(u.service, u.instance) == t.partition;
      assert u in y.services && y.services[u] == y.clients[t];
    }
  }

  lemma FindKeepsLinked(ps: Partitions, x: Index, k: Key)
    requires Linked(ps, x)
    ensures Linked(ps, Find(ps, x, k).1)
  {
    if k !in x.services && k in x.info {
      var s := SlotFor(ps, k, x.info[k].address, x.info[k].remotePort);
      if s in x.clients {
        assert Shared(ps, x, s);
        AttachKeepsLinked(ps, x, k, x.clients[s]);
      }
    }
  }

  /** The slot a new endpoint for `k` is filed under. */
  function NewSlot(ps: Partitions, x: Index, k: Key): Slot
    requires k in x.info
  {
    SlotFor(ps, k, x.info[k].address, x.info[k].port)
  }

  predicate Creates(x: Index, k: Key, local: Port) {
    k in x.info && x.info[k].port != ILLEGAL_PORT && local != ILLEGAL_PORT
  }

  lemma CreateServes(ps: Partitions, x: Index, k: Key, local: Port)
    requires Linked(ps, x) && k !in x.services && Creates(x, k, local) && NewSlot(ps, x, k) !in x.clients
    ensures var y := Create(ps, x, k, local).1;
            forall i <- y.services :: Serves(ps, y, i)
  {
    var y := Create(ps, x, k, local).1;
    forall i | i in y.services
      ensures Serves(ps, y, i)
    {
      assert i != k ==> Serves(ps, x, i);
    }
  }

  lemma CreateShares(ps: Partitions, x: Index, k: Key, local: Port)
    requires Linked(ps, x) && k !in x.services && Creates(x, k, local)
    ensures var y := Create(ps, x, k, local).1;
            forall t <- y.clients :: Shared(ps, y, t)
  {
    var y := Create(ps, x, k, local).1;
    forall t | t in y.clients
      ensures Shared(ps, y, t)
    {
      if t == NewSlot(ps, x, k) {
        assert k in y.services && y.services[k] == y.clients[t];
      } else {
        assert Shared(ps, x, t);
        var u :| u in x.services && x.services[u] == x.clients[t] && ps(u.service, u.instance) == t.partition;
        assert u in y.services && y.services[u] == y.clients[t];
      }
    }
  }

  lemma CreateInFreeSlot(ps: Partitions, x: Index, k: Key, local: Port)
    requires Linked(ps, x) && k !in x.services && Creates(x, k, local) && NewSlot(ps, x, k) !in x.clients
    ensures Linked(ps, Create(ps, x, k, local).1)
  {
    CreateServes(ps, x, k, local);
    CreateShares(ps, x, k, local);
    assert forall t <- x.clients :: Shared(ps, x, t) ==> x.clients[t] < |x.endpoints|;
    AddDistinct(x.clients, NewSlot(ps, x, k), |x.endpoints|);
  }

  lemma CreateInTakenSlot(ps: Partitions, x: Index, k: Key, local: Port)
    requires Linked(ps, x) && k !in x.services && Creates(x, k, local) && NewSlot(ps, x, k) in x.clients
    ensures !Linked(ps, Create(ps, x, k, local).1)
  {
    var s := NewSlot(ps, x, k);
    var y := Create(ps, x, k, local).1;
    assert Shared(ps, x, s);
    var u :| u in x.services && x.services[u] == x.clients[s] && ps(u.service, u.instance) == s.partition;
    assert u in y.services && y.services[u] == x.clients[s] != y.clients[s];
    assert y.endpoints[x.clients[s]].remote == s.remote;
    assert !Serves(ps, y, u);
  }

  /** A new endpoint keeps the index linked exactly if no endpoint is filed under its slot yet. */
  lemma CreateKeepsLinkedIff(ps: Partitions, x: Index, k: Key, local: Port)
    requires Linked(ps, x) && k !in x.services && Creates(x, k, local)
    ensures Linked(ps, Create(ps, x, k, local).1) <==> NewSlot(ps, x, k) !in x.clients
  {
    if NewSlot(ps, x, k) in x.clients {
      CreateInTakenSlot(ps, x, k, local);
    } else {
      CreateInFreeSlot(ps, x, k, local);
    }
  }

  /** Where both ports of the definition agree, an endpoint is created only if none can be shared. */
  lemma FindOrCreateKeepsLinked(ps: Partitions, x: Index, k: Key, local: Port)
    requires Linked(ps, x) && (k in x.info ==> x.info[k].port == x.info[k].remotePort)
    ensures Linked(ps, FindOrCreate(ps, x, k, local).1)
  {
    FindKeepsLinked(ps, x, k);
    if Find(ps, x, k).0.None? && Creates(x, k, local) {
      CreateKeepsLinkedIff(ps, x, k, local);
    }
  }

  /** All users of an endpoint are of one partition and of its protocol. */
  lemma UsersAgree(ps: Partitions, x: Index, j: Key, k: Key)
    requires Linked(ps, x) && j in x.services && k in x.services && x.services[j] == x.services[k]
    ensures ps(j.service, j.instance) == ps(k.service, k.instance) && j.reliable == k.reliable
  {
    assert Serves(ps, x, j) && Serves(ps, x, k);
  }

  lemma DetachServes(ps: Partitions, x: Index, k: Key, y: Index)
    requires Linked(ps, x) && k in x.services && y == x.(services := x.services - {k}, instances := y.instances)
    ensures forall i <- y.services :: Serves(ps, y, i)
  {
    forall i | i in y.services
      ensures Serves(ps, y, i)
    {
      assert Serves(ps, x, i);
    }
  }

  lemma DetachShares(ps: Partitions, x: Index, k: Key, y: Index, j: Key)
    requires Linked(ps, x) && k in x.services && y == x.(services := x.services - {k}, instances := y.instances)
    requires j in y.services && y.services[j] == x.services[k]
    ensures forall t <- y.clients :: Shared(ps, y, t)
  {
    UsersAgree(ps, x, j, k);
    forall t | t in y.clients
      ensures Shared(ps, y, t)
    {
      assert Shared(ps, x, t);
      var u :| u in x.services && x.services[u] == x.clients[t] && ps(u.service, u.instance) == t.partition;
      var v := if u == k then j else u;
      assert v in y.services && y.services[v] == y.clients[t] && ps(v.service, v.instance) == t.partition;
    }
  }

  lemma ClearSharedKeepsLinked(ps: Partitions, x: Index, k: Key, y: Index)
    requires Linked(ps, x) && k in x.services && InUse(x.services - {k}, x.services[k], k.reliable)
    requires y == x.(services := x.services - {k}, instances := y.instances)
    ensures Linked(ps, y)
  {
    var j :| j in y.services && y.services[j] == x.services[k];
    DetachServes(ps, x, k, y);
    DetachShares(ps, x, k, y, j);
  }

  lemma LastUser(ps: Partitions, x: Index, k: Key)
    requires Linked(ps, x) && k in x.services && !InUse(x.services - {k}, x.services[k], k.reliable)
    ensures forall i <- x.services :: i != k ==> x.services[i] != x.services[k]
  {
    var others := x.services - {k};
    forall j | j in x.services && x.services[j] == x.services[k]
      ensures j.reliable == k.reliable
    {
      UsersAgree(ps, x, j, k);
    }
    assert forall i <- x.services :: i != k ==> i in others && others[i] == x.services[i];
  }

  lemma StopServes(ps: Partitions, x: Index, k: Key, reported: Port, y: Index)
    requires Linked(ps, x) && k in x.services && y == x.(services := x.services - {k}, instances := y.instances)
    requires x.services[k] < |x.endpoints| && forall i <- x.services :: i != k ==> x.services[i] != x.services[k]
    ensures var z := StopEndpoint(ps, y, k, x.services[k], reported);
            forall i <- z.services :: Serves(ps, z, i)
  {
    var z := StopEndpoint(ps, y, k, x.services[k], reported);
    forall i | i in z.services
      ensures Serves(ps, z, i)
    {
      assert Serves(ps, x, i);
    }
  }

  lemma StopShares(ps: Partitions, x: Index, k: Key, reported: Port, y: Index)
    requires Linked(ps, x) && k in x.services && y == x.(services := x.services - {k}, instances := y.instances)
    requires x.services[k] < |x.endpoints|
    ensures var z := StopEndpoint(ps, y, k, x.services[k], reported);
            && (forall t <- z.clients :: Shared(ps, z, t))
            && Distinct(z.clients)
  {
    var z := StopEndpoint(ps, y, k, x.services[k], reported);
    assert Serves(ps, x, k);
    forall t | t in z.clients
      ensures Shared(ps, z, t)
    {
      assert Shared(ps, x, t);
      var u :| u in x.services && x.services[u] == x.clients[t] && ps(u.service, u.instance) == t.partition;
      assert u in z.services && z.services[u] == z.clients[t];
    }
  }

  lemma ClearLastKeepsLinked(ps: Partitions, x: Index, k: Key, reported: Port, y: Index)
    requires Linked(ps, x) && k in x.services && !InUse(x.services - {k}, x.services[k], k.reliable)
    requires y == x.(services := x.services - {k}, instances := y.instances) && x.services[k] < |x.endpoints|
    ensures Linked(ps, StopEndpoint(ps, y, k, x.services[k], reported))
  {
    LastUser(ps, x, k);
    StopServes(ps, x, k, reported, y);
    StopShares(ps, x, k, reported, y);
  }

  lemma ClearKeepsLinked(ps: Partitions, x: Index, k: Key, reported: Port)
    requires Linked(ps, x)
    ensures forall j <- x.services :: x.services[j] < |x.endpoints|
    ensures Linked(ps, Clear(ps, x, k, reported))
  {
    assert forall j <- x.services :: Serves(ps, x, j);
    if k in x.services {
      var h := x.services[k];
      var y := x.(services := x.services - {k}, instances := x.instances - {(k.service, h)});
      if InUse(y.services, h, k.reliable) {
        ClearSharedKeepsLinked(ps, x, k, y);
      } else {
        ClearLastKeepsLinked(ps, x, k, reported, y);
      }
    }
  }

  /** In a linked index, exactly the endpoints in use can be found. */
  lemma UsedIffFound(ps: Partitions, x: Index, h: Handle)
    requires Linked(ps, x)
    ensures h in x.services.Values <==> h in x.clients.Values
    ensures h in x.services.Values ==> h !in x.stopped
  {
    if h in x.services.Values {
      var k :| k in x.services && x.services[k] == h;
      assert Serves(ps, x, k);
    }
    if h in x.clients.Values {
      var s :| s in x.clients && x.clients[s] == h;
      assert Shared(ps, x, s);
    }
  }

  /** An endpoint is stopped exactly when the last service instance that uses it goes. */
  lemma StopsWithLastUser(ps: Partitions, x: Index, k: Key, reported: Port)
    requires Linked(ps, x) && k in x.services
    ensures forall j <- x.services :: x.services[j] < |x.endpoints|
    ensures var h := x.services[k];
            var y := Clear(ps, x, k, reported);
            && (h in y.stopped <==> forall j <- x.services :: j != k ==> x.services[j] != h)
            && y.stopped <= x.stopped + {h}
  {
    assert forall j <- x.services :: Serves(ps, x, j);
    var h := x.services[k];
    forall j | j in x.services && x.services[j] == h
      ensures j.reliable == k.reliable
    {
      UsersAgree(ps, x, j, k);
    }
    assert h !in x.stopped;
    var others := x.services - {k};
    assert InUse(others, h, k.reliable) <==> exists j <- x.services :: j != k && x.services[j] == h;
  }

  lemma RebindKeepsLinked(ps: Partitions, x: Index, h: Handle, local: Port)
    requires Linked(ps, x) && h < |x.endpoints|
    ensures Linked(ps, Rebind(x, h, local))
  {
    var y := Rebind(x, h, local);
    assert forall i | 0 <= i < |x.endpoints| :: y.endpoints[i].remote == x.endpoints[i].remote;
    forall i | i in y.services
      ensures Serves(ps, y, i)
    {
      assert Serves(ps, x, i);
    }
    forall t | t in y.clients
      ensures Shared(ps, y, t)
    {
      assert Shared(ps, x, t);
    }
  }

  // ---------------------------------------------------------------------------
  // Whole runs
  // ---------------------------------------------------------------------------

  /** The definitions in use name one port only. */
  predicate Agreeing(x: Index) {
    forall k <- x.info :: x.info[k].port == x.info[k].remotePort
  }

  predicate AgreeingEvent(e: Event) {
    match e
    case Offer(_, d) => d.port == d.remotePort
    case OfferBoth(_, _, tcp, udp) => tcp.port == tcp.remotePort && udp.port == udp.remotePort
    case _ => true
  }

  lemma InfoKeepsLinked(ps: Partitions, x: Index, y: Index)
    requires Linked(ps, x) && y == x.(info := y.info)
    ensures Linked(ps, y)
  {
    assert forall k <- y.services :: Serves(ps, x, k) ==> Serves(ps, y, k);
    assert forall s <- y.clients :: Shared(ps, x, s) ==> Shared(ps, y, s);
  }

  lemma FindKeepsInfo(ps: Partitions, x: Index, k: Key)
    ensures Find(ps, x, k).1.info == x.info
  {
  }

  /** What a step does to the definitions. */
  lemma StepInfo(ps: Partitions, x: Index, e: Event)
    requires Enabled(x, e)
    ensures Step(ps, x, e).info ==
            match e
            case Offer(k, d) => x.info[k := d]
            case OfferBoth(s, i, tcp, udp) => x.info[Key(s, i, false) := udp][Key(s, i, true) := tcp]
            case Withdraw(k) => x.info - {k}
            case _ => x.info
  {
    match e
    case OfferBoth(s, i, tcp, udp) =>
      var y := x.(info := x.info[Key(s, i, false) := udp][Key(s, i, true) := tcp]);
      FindKeepsInfo(ps, y, Key(s, i, false));
      FindKeepsInfo(ps, Find(ps, y, Key(s, i, false)).1, Key(s, i, true));
    case Offer(k, d) => FindKeepsInfo(ps, x.(info := x.info[k := d]), k);
    case _ =>
  }

  lemma StepKeepsAgreeing(ps: Partitions, x: Index, e: Event)
    requires Agreeing(x) && Enabled(x, e) && AgreeingEvent(e)
    ensures Agreeing(Step(ps, x, e))
  {
    StepInfo(ps, x, e);
  }

  lemma OfferKeepsLinked(ps: Partitions, x: Index, k: Key, d: Definition)
    requires Linked(ps, x)
    ensures Linked(ps, Step(ps, x, Offer(k, d)))
  {
    var y := x.(info := x.info[k := d]);
    InfoKeepsLinked(ps, x, y);
    FindKeepsLinked(ps, y, k);
  }

  lemma OfferBothKeepsLinked(ps: Partitions, x: Index, s: nat, i: nat, tcp: Definition, udp: Definition)
    requires Linked(ps, x)
    ensures Linked(ps, Step(ps, x, OfferBoth(s, i, tcp, udp)))
  {
    var y := x.(info := x.info[Key(s, i, false) := udp][Key(s, i, true) := tcp]);
    InfoKeepsLinked(ps, x, y);
    FindKeepsLinked(ps, y, Key(s, i, false));
    FindKeepsLinked(ps, Find(ps, y, Key(s, i, false)).1, Key(s, i, true));
  }

  lemma StepKeepsLinked(ps: Partitions, x: Index, e: Event)
    requires Linked(ps, x) && Agreeing(x) && Enabled(x, e) && AgreeingEvent(e)
    ensures Linked(ps, Step(ps, x, e))
  {
    match e
    case Offer(k, d) => OfferKeepsLinked(ps, x, k, d);
    case OfferBoth(s, i, tcp, udp) => OfferBothKeepsLinked(ps, x, s, i, tcp, udp);
    case Withdraw(k) => InfoKeepsLinked(ps, x, x.(info := x.info - {k}));
    case Request(k, p) => FindOrCreateKeepsLinked(ps, x, k, p);
    case Gone(k, p) => ClearKeepsLinked(ps, x, k, p);
    case BindError(h, p) => RebindKeepsLinked(ps, x, h, p);
  }

  /** In every run: each service instance has a running endpoint, and each one that can be found has a user. */
  lemma {:induction false} RunsStayLinked(ps: Partitions, es: seq<Event>)
    requires Legal(ps, es) && forall e <- es :: AgreeingEvent(e)
    ensures Linked(ps, Run(ps, es)) && Agreeing(Run(ps, es))
    decreases |es|
  {
    if es != [] {
      RunsStayLinked(ps, es[..|es| - 1]);
      StepKeepsLinked(ps, Run(ps, es[..|es| - 1]), es[|es| - 1]);
      StepKeepsAgreeing(ps, Run(ps, es[..|es| - 1]), es[|es| - 1]);
    }
  }
}
