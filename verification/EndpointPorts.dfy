/**
 The local ports of the endpoints in the index, and the service instances found through them.
 */
module EndpointPorts {
  import opened ClientPorts
  import opened EndpointIndex
  import opened EndpointInvariants
  import opened Wrappers

  // ---------------------------------------------------------------------------
  // Local ports
  // ---------------------------------------------------------------------------

  /** Endpoint `h` runs and was given the local port `p` towards `r`. */
  predicate Holds(x: Index, h: Handle, r: Remote, p: Port) {
    Live(x, h) && x.endpoints[h] == Endpoint(r, p)
  }

  /** The ports recorded for a remote are exactly the local ports given to the running endpoints. */
  ghost predicate PortsTracked(x: Index) {
    forall r: Remote, p: Port | p != 0 :: p in Used(x, r) <==> exists h :: Holds(x, h, r, p)
  }

  /** No two running endpoints towards the same remote were given the same local port. */
  ghost predicate PortsUnique(x: Index) {
    forall g, h, r, p: Port | p != 0 && Holds(x, g, r, p) && Holds(x, h, r, p) :: g == h
  }

  ghost predicate PortsOk(x: Index) {
    PortsTracked(x) && PortsUnique(x) && forall r: Remote :: ILLEGAL_PORT !in Used(x, r)
  }

  lemma LiveIff(x: Index, h: Handle)
    ensures Live(x, h) <==> h < |x.endpoints| && h in x.services.Values
  {
    if h in x.services.Values {
      var k :| k in x.services && x.services[k] == h;
    }
  }

  /** Steps that keep the running endpoints and the record of ports keep all that is said about ports. */
  lemma SamePorts(x: Index, y: Index)
    requires PortsOk(x) && y.used == x.used && y.endpoints == x.endpoints && y.services.Values == x.services.Values
    ensures PortsOk(y)
  {
    forall h
      ensures Live(y, h) <==> Live(x, h)
    {
      LiveIff(x, h);
      LiveIff(y, h);
    }
    assert forall r :: Used(y, r) == Used(x, r);
    assert forall h, r, p :: Holds(y, h, r, p) <==> Holds(x, h, r, p);
  }

  lemma FindKeepsPorts(ps: Partitions, x: Index, k: Key)
    requires PortsOk(x) && Linked(ps, x)
    ensures PortsOk(Find(ps, x, k).1)
  {
    var y := Find(ps, x, k).1;
    if k !in x.services && k in x.info {
      var s := SlotFor(ps, k, x.info[k].address, x.info[k].remotePort);
      if s in x.clients {
        var h := x.clients[s];
        UsedIffFound(ps, x, h);
        AddValue(x.services, k, h);
      }
    }
    SamePorts(x, y);
  }

  lemma AddValue<K, V>(m: map<K, V>, k: K, v: V)
    requires k !in m
    ensures m[k := v].Values == m.Values + {v}
  {
    var n := m[k := v];
    assert n[k] == v;
    forall w | w in m.Values
      ensures w in n.Values
    {
      var j :| j in m && m[j] == w;
      assert n[j] == w;
    }
  }

  /** A new endpoint `h` with a port that was not recorded. */
  lemma AddPort(x: Index, y: Index, r: Remote, p: Port)
    requires PortsOk(x) && (p == 0 || p !in Used(x, r)) && p != ILLEGAL_PORT
    requires y.endpoints == x.endpoints + [Endpoint(r, p)] && y.used == x.used[r := Used(x, r) + {p}]
    requires y.services.Values == x.services.Values + {|x.endpoints|}
    requires forall h <- x.services.Values :: h < |x.endpoints|
    ensures PortsOk(y)
  {
    forall h
      ensures Live(y, h) <==> Live(x, h) || h == |x.endpoints|
    {
      LiveIff(x, h);
      LiveIff(y, h);
    }
    forall h, s: Remote, q: Port
      ensures Holds(y, h, s, q) <==> Holds(x, h, s, q) || (h == |x.endpoints| && s == r && q == p)
    {
    }
    assert forall s: Remote :: Used(y, s) == if s == r then Used(x, r) + {p} else Used(x, s);
    assert Holds(y, |x.endpoints|, r, p);
  }

  lemma CreateKeepsPorts(ps: Partitions, x: Index, k: Key, local: Port)
    requires PortsOk(x) && Linked(ps, x) && k !in x.services
    requires k in x.info ==> Offered(x, Remote(x.info[k].address, x.info[k].port, k.reliable), local)
    ensures PortsOk(Create(ps, x, k, local).1)
  {
    if Creates(x, k, local) {
      var y := Create(ps, x, k, local).1;
      forall h | h in x.services.Values
        ensures h < |x.endpoints|
      {
        var j :| j in x.services && x.services[j] == h;
        assert Serves(ps, x, j);
      }
      AddValue(x.services, k, |x.endpoints|);
      AddPort(x, y, Remote(x.info[k].address, x.info[k].port, k.reliable), local);
    }
  }

  /** Endpoint `h` is no longer used, and its port is released. */
  lemma DropPort(x: Index, y: Index, h: Handle, reported: Port)
    requires PortsOk(x) && Live(x, h) && Reportable(x, h, reported)
    requires y.endpoints == x.endpoints && y.services.Values == x.services.Values - {h}
    requires var r := x.endpoints[h].remote;
             y.used == if r in x.used then x.used[r := x.used[r] - {reported}] else x.used
    ensures PortsOk(y)
  {
    var e := x.endpoints[h];
    forall g
      ensures Live(y, g) <==> Live(x, g) && g != h
    {
      LiveIff(x, g);
      LiveIff(y, g);
    }
    forall s: Remote
      ensures Used(y, s) == if s == e.remote then Used(x, s) - {reported} else Used(x, s)
    {
    }
    assert Holds(x, h, e.remote, e.localPort);
    assert forall g, r: Remote, p: Port :: Holds(y, g, r, p) ==> Holds(x, g, r, p);
    forall r: Remote, p: Port | p != 0
      ensures p in Used(y, r) <==> exists g :: Holds(y, g, r, p)
    {
      assert forall g :: Holds(y, g, r, p) <==> Holds(x, g, r, p) && g != h;
      if p in Used(y, r) {
        var g :| Holds(x, g, r, p);
        assert g != h;
        assert Holds(y, g, r, p);
      }
    }
  }

  lemma DropValue<K, V>(m: map<K, V>, k: K)
    requires k in m
    ensures var n := m - {k};
            n.Values == if exists j <- n :: n[j] == m[k] then m.Values else m.Values - {m[k]}
  {
    var n := m - {k};
    forall v | v in m.Values && v != m[k]
      ensures v in n.Values
    {
      var j :| j in m && m[j] == v;
      assert n[j] == v;
    }
  }

  lemma ClearKeepsPorts(ps: Partitions, x: Index, k: Key, reported: Port)
    requires PortsOk(x) && Linked(ps, x)
    requires forall j <- x.services :: x.services[j] < |x.endpoints|
    requires k in x.services ==> Reportable(x, x.services[k], reported)
    ensures PortsOk(Clear(ps, x, k, reported))
  {
    if k in x.services {
      var h := x.services[k];
      var y := Clear(ps, x, k, reported);
      var rest := x.services - {k};
      DropValue(x.services, k);
      forall j | j in rest && rest[j] == h
        ensures j.reliable == k.reliable
      {
        UsersAgree(ps, x, j, k);
      }
      if InUse(rest, h, k.reliable) {
        SamePorts(x, y);
      } else {
        DropPort(x, y, h, reported);
      }
    }
  }

  /**
   An endpoint that got another local port after a bind error: the record of ports stays right
   exactly if the system chooses the port, because a configured new port is not recorded.
   */
  lemma RebindKeepsPortsIff(x: Index, h: Handle, p: Port)
    requires PortsOk(x) && Live(x, h) && p != ILLEGAL_PORT && Offered(x, x.endpoints[h].remote, p)
    ensures PortsOk(Rebind(x, h, p)) <==> p == 0
  {
    var y := Rebind(x, h, p);
    var e := x.endpoints[h];
    assert forall g :: Live(y, g) <==> Live(x, g);
    forall s: Remote
      ensures Used(y, s) == if s == e.remote then Used(x, s) - {e.localPort} else Used(x, s)
    {
    }
    assert Holds(y, h, e.remote, p);
    if p == 0 {
      assert Holds(x, h, e.remote, e.localPort);
      assert forall g, r: Remote, q: Port | q != 0 :: Holds(y, g, r, q) ==> Holds(x, g, r, q);
      forall r: Remote, q: Port | q != 0
        ensures q in Used(y, r) <==> exists g :: Holds(y, g, r, q)
      {
        assert forall g :: Holds(y, g, r, q) <==> Holds(x, g, r, q) && g != h;
        if q in Used(y, r) {
          var g :| Holds(x, g, r, q);
          assert g != h;
          assert Holds(y, g, r, q);
        }
      }
    } else {
      assert p !in Used(y, e.remote);
    }
  }

  /**
   The same in terms of the configuration: where a service instance that uses the endpoint gets its port from
   the search, the record stays right exactly if no ports are configured for it.
   */
  lemma RebindFromSearchIff(x: Index, h: Handle, cs: seq<Client>, service: nat, instance: nat)
    requires PortsOk(x) && Live(x, h) && AllRemember(cs)
    requires var r := x.endpoints[h].remote;
             && !ConfiguresZero(cs, service, instance, r.port)
             && GetClientPort(cs, service, instance, r.port, Used(x, r)).port != ILLEGAL_PORT
    ensures var r := x.endpoints[h].remote;
            var p := GetClientPort(cs, service, instance, r.port, Used(x, r)).port;
            PortsOk(Rebind(x, h, p)) <==> !Governs(cs, service, instance, r.port)
  {
    var r := x.endpoints[h].remote;
    GetClientPortSound(cs, service, instance, r.port, Used(x, r));
    RebindKeepsPortsIff(x, h, GetClientPort(cs, service, instance, r.port, Used(x, r)).port);
  }

  predicate PortEvent(e: Event) {
    e.BindError? ==> e.port == 0
  }

  lemma StepKeepsPorts(ps: Partitions, x: Index, e: Event)
    requires PortsOk(x) && Linked(ps, x) && Enabled(x, e) && PortEvent(e)
    ensures PortsOk(Step(ps, x, e))
  {
    match e
    case Offer(k, d) =>
      var y := x.(info := x.info[k := d]);
      InfoKeepsLinked(ps, x, y);
      SamePorts(x, y);
      FindKeepsPorts(ps, y, k);
    case OfferBoth(s, i, tcp, udp) =>
      var y := x.(info := x.info[Key(s, i, false) := udp][Key(s, i, true) := tcp]);
      InfoKeepsLinked(ps, x, y);
      SamePorts(x, y);
      FindKeepsPorts(ps, y, Key(s, i, false));
      FindKeepsLinked(ps, y, Key(s, i, false));
      FindKeepsPorts(ps, Find(ps, y, Key(s, i, false)).1, Key(s, i, true));
    case Withdraw(k) =>
      SamePorts(x, x.(info := x.info - {k}));
    case Request(k, p) =>
      FindKeepsPorts(ps, x, k);
      if Find(ps, x, k).0.None? {
        CreateKeepsPorts(ps, x, k, p);
      }
    case Gone(k, p) =>
      ClearKeepsPorts(ps, x, k, p);
    case BindError(h, p) =>
      RebindKeepsPortsIff(x, h, p);
  }

  /**
   In every run without a configured rebind: running endpoints towards the same remote have
   different local ports, and a port is recorded exactly as long as an endpoint holds it.
   */
  lemma {:induction false} RunsKeepPorts(ps: Partitions, es: seq<Event>)
    requires Legal(ps, es) && forall e <- es :: AgreeingEvent(e) && PortEvent(e)
    ensures PortsOk(Run(ps, es))
    decreases |es|
  {
    if es != [] {
      var before := es[..|es| - 1];
      RunsKeepPorts(ps, before);
      RunsStayLinked(ps, before);
      StepKeepsPorts(ps, Run(ps, before), es[|es| - 1]);
    }
  }

  // ---------------------------------------------------------------------------
  // From an endpoint back to the service instance
  // ---------------------------------------------------------------------------

  /** A message of a service that arrives through its endpoint is attributed to the right instance. */
  predicate AllAttributed(x: Index) {
    forall k <- x.services :: FindInstance(x, k.service, x.services[k]) == k.instance
  }

  /** No endpoint is used by two instances of one service. */
  predicate Sole(x: Index) {
    forall j <- x.services, k <- x.services ::
      j.service == k.service && x.services[j] == x.services[k] ==> j.instance == k.instance
  }

  lemma SameAttribution(x: Index, y: Index)
    requires AllAttributed(x) && y.services == x.services && y.instances == x.instances
    ensures AllAttributed(y)
  {
    assert forall k <- y.services :: FindInstance(y, k.service, y.services[k]) == FindInstance(x, k.service, x.services[k]);
  }

  lemma AttachAttributes(x: Index, k: Key, h: Handle)
    requires AllAttributed(x) && k !in x.services && Sole(Attach(x, k, h))
    ensures AllAttributed(Attach(x, k, h))
  {
    var y := Attach(x, k, h);
    forall j | j in y.services
      ensures FindInstance(y, j.service, y.services[j]) == j.instance
    {
      if j.service == k.service && y.services[j] == h {
        assert y.services[k] == h;
        assert j.instance == k.instance;
      } else {
        assert FindInstance(x, j.service, x.services[j]) == j.instance;
      }
    }
  }

  lemma FindAttributes(ps: Partitions, x: Index, k: Key)
    requires AllAttributed(x) && Sole(Find(ps, x, k).1)
    ensures AllAttributed(Find(ps, x, k).1)
  {
    if k !in x.services && k in x.info {
      var s := SlotFor(ps, k, x.info[k].address, x.info[k].remotePort);
      if s in x.clients {
        AttachAttributes(x, k, x.clients[s]);
      }
    }
  }

  lemma CreateAttributes(ps: Partitions, x: Index, k: Key, local: Port)
    requires AllAttributed(x) && k !in x.services && Sole(Create(ps, x, k, local).1)
    ensures AllAttributed(Create(ps, x, k, local).1)
  {
    if Creates(x, k, local) {
      var y := Create(ps, x, k, local).1;
      var z := Attach(x, k, |x.endpoints|);
      assert Sole(z);
      AttachAttributes(x, k, |x.endpoints|);
      SameAttribution(z, y);
    }
  }

  lemma SoleUser(ps: Partitions, x: Index, j: Key, k: Key)
    requires Sole(x) && Linked(ps, x) && j in x.services && k in x.services
    requires j.service == k.service && x.services[j] == x.services[k]
    ensures j == k
  {
    UsersAgree(ps, x, j, k);
  }

  lemma DetachAttributes(x: Index, k: Key)
    requires AllAttributed(x) && k in x.services
    requires forall j <- x.services :: j.service == k.service && x.services[j] == x.services[k] ==> j == k
    ensures AllAttributed(Detach(x, k))
  {
    var y := Detach(x, k);
    forall j | j in y.services
      ensures FindInstance(y, j.service, y.services[j]) == j.instance
    {
      assert FindInstance(x, j.service, x.services[j]) == j.instance;
    }
  }

  lemma ClearDetaches(ps: Partitions, x: Index, k: Key, reported: Port)
    requires k in x.services && forall j <- x.services :: x.services[j] < |x.endpoints|
    ensures var y := Clear(ps, x, k, reported);
            y.services == Detach(x, k).services && y.instances == Detach(x, k).instances
  {
  }

  lemma ClearAttributes(ps: Partitions, x: Index, k: Key, reported: Port)
    requires AllAttributed(x) && Sole(x) && Linked(ps, x)
    requires forall j <- x.services :: x.services[j] < |x.endpoints|
    ensures AllAttributed(Clear(ps, x, k, reported))
  {
    if k in x.services {
      forall j | j in x.services && j.service == k.service && x.services[j] == x.services[k]
        ensures j == k
      {
        SoleUser(ps, x, j, k);
      }
      DetachAttributes(x, k);
      ClearDetaches(ps, x, k, reported);
      SameAttribution(Detach(x, k), Clear(ps, x, k, reported));
    }
  }

  /** The intermediate state of a joint offer has no fewer users than the final one. */
  lemma FindKeepsUsers(ps: Partitions, x: Index, k: Key)
    ensures Sole(Find(ps, x, k).1) ==> Sole(x)
  {
    var y := Find(ps, x, k).1;
    assert forall j <- x.services :: j in y.services && y.services[j] == x.services[j];
  }

  lemma StepAttributes(ps: Partitions, x: Index, e: Event)
    requires AllAttributed(x) && Sole(x) && Linked(ps, x) && Enabled(x, e) && Sole(Step(ps, x, e))
    ensures AllAttributed(Step(ps, x, e))
  {
    match e
    case Offer(k, d) =>
      var y := x.(info := x.info[k := d]);
      SameAttribution(x, y);
      if k.reliable {
        FindAttributes(ps, y, k);
      }
    case OfferBoth(s, i, tcp, udp) =>
      var y := x.(info := x.info[Key(s, i, false) := udp][Key(s, i, true) := tcp]);
      var z := Find(ps, y, Key(s, i, false)).1;
      SameAttribution(x, y);
      FindKeepsUsers(ps, z, Key(s, i, true));
      FindAttributes(ps, y, Key(s, i, false));
      FindAttributes(ps, z, Key(s, i, true));
    case Withdraw(k) =>
      SameAttribution(x, x.(info := x.info - {k}));
    case Request(k, p) =>
      if Find(ps, x, k).0.None? {
        CreateAttributes(ps, x, k, p);
      } else {
        FindAttributes(ps, x, k);
      }
    case Gone(k, p) =>
      ClearAttributes(ps, x, k, p);
    case BindError(h, p) =>
      SameAttribution(x, Rebind(x, h, p));
  }

  /** After the first `n` events of a run. */
  predicate SoleAfter(ps: Partitions, es: seq<Event>, n: nat) {
    n <= |es| && Legal(ps, es[..n]) && Sole(Run(ps, es[..n]))
  }

  predicate AttributedAfter(ps: Partitions, es: seq<Event>, n: nat) {
    n <= |es| && Legal(ps, es[..n]) && AllAttributed(Run(ps, es[..n]))
  }

  lemma SoleStepAttributes(ps: Partitions, es: seq<Event>, n: nat)
    requires n < |es| && (forall e <- es :: AgreeingEvent(e))
    requires AttributedAfter(ps, es, n) && SoleAfter(ps, es, n) && SoleAfter(ps, es, n + 1)
    ensures AttributedAfter(ps, es, n + 1)
  {
    assert es[..n + 1][..n] == es[..n];
    RunsStayLinked(ps, es[..n]);
    StepAttributes(ps, Run(ps, es[..n]), es[n]);
  }

  lemma {:induction false} SoleRunsAttribute(ps: Partitions, es: seq<Event>, n: nat)
    requires n <= |es| && forall e <- es :: AgreeingEvent(e)
    requires forall m | 0 <= m <= n :: SoleAfter(ps, es, m)
    ensures AttributedAfter(ps, es, n)
    decreases n
  {
    if n > 0 {
      SoleRunsAttribute(ps, es, n - 1);
      SoleStepAttributes(ps, es, n - 1);
    } else {
      assert es[..0] == [];
    }
  }

  lemma {:induction false} LegalPrefix(ps: Partitions, es: seq<Event>, n: nat)
    requires Legal(ps, es) && n <= |es|
    ensures Legal(ps, es[..n])
    decreases |es|
  {
    if n == |es| {
      assert es[..n] == es;
    } else {
      LegalPrefix(ps, es[..|es| - 1], n);
      assert es[..|es| - 1][..n] == es[..n];
    }
  }

  lemma AttributedIsSole(x: Index)
    requires AllAttributed(x)
    ensures Sole(x)
  {
  }

  /**
   Through a whole run messages are attributed to the right instance if and only if at no time two
   instances of one service use the same endpoint.
   */
  lemma AttributionIff(ps: Partitions, es: seq<Event>)
    requires Legal(ps, es) && forall e <- es :: AgreeingEvent(e)
    ensures (forall n | 0 <= n <= |es| :: AttributedAfter(ps, es, n)) <==> (forall n | 0 <= n <= |es| :: SoleAfter(ps, es, n))
  {
    if forall n | 0 <= n <= |es| :: SoleAfter(ps, es, n) {
      forall n | 0 <= n <= |es|
        ensures AttributedAfter(ps, es, n)
      {
        SoleRunsAttribute(ps, es, n);
      }
    }
    if forall n | 0 <= n <= |es| :: AttributedAfter(ps, es, n) {
      forall n | 0 <= n <= |es|
        ensures SoleAfter(ps, es, n)
      {
        LegalPrefix(ps, es, n);
        assert AttributedAfter(ps, es, n);
        AttributedIsSole(Run(ps, es[..n]));
      }
    }
  }

  // ---------------------------------------------------------------------------
  // Runs on which ports collide or messages are attributed wrongly
  // ---------------------------------------------------------------------------

  ghost predicate Reachable(ps: Partitions, x: Index) {
    exists es :: Legal(ps, es) && x == Run(ps, es)
  }

  lemma StepReachable(ps: Partitions, x: Index, e: Event)
    requires Reachable(ps, x) && Enabled(x, e)
    ensures Reachable(ps, Step(ps, x, e))
  {
    var es :| Legal(ps, es) && x == Run(ps, es);
    assert (es + [e])[..|es|] == es;
    assert Legal(ps, es + [e]);
  }

  /** Service instances that are offered through UDP. */
  lemma Offers(ps: Partitions, keys: seq<Key>, d: Definition) returns (x: Index)
    requires forall k <- keys :: !k.reliable
    ensures Reachable(ps, x) && x == Empty().(info := x.info)
    ensures forall k <- keys :: k in x.info && x.info[k] == d
    decreases |keys|
  {
    if keys == [] {
      x := Empty();
      assert Legal(ps, []) && x == Run(ps, []);
    } else {
      var y := Offers(ps, keys[..|keys| - 1], d);
      x := Step(ps, y, Offer(keys[|keys| - 1], d));
      StepReachable(ps, y, Offer(keys[|keys| - 1], d));
    }
  }

  /** A service instance that shares no endpoint gets one with port `p`. */
  lemma Requests(ps: Partitions, x: Index, k: Key, d: Definition, p: Port) returns (y: Index)
    requires Reachable(ps, x) && k !in x.services && k in x.info && x.info[k] == d && d.port == d.remotePort
    requires d.port != ILLEGAL_PORT && p != ILLEGAL_PORT && SlotFor(ps, k, d.address, d.port) !in x.clients
    requires var r := Remote(d.address, d.port, k.reliable); Offered(x, r, p)
    ensures Reachable(ps, y) && y.info == x.info && y.services == x.services[k := |x.endpoints|]
    ensures var r := Remote(d.address, d.port, k.reliable);
            && y.endpoints == x.endpoints + [Endpoint(r, p)] && Used(y, r) == Used(x, r) + {p}
            && y.clients == x.clients[SlotFor(ps, k, d.address, d.port) := |x.endpoints|]
    ensures y.instances == x.instances[(k.service, |x.endpoints|) := k.instance]
  {
    y := Step(ps, x, Request(k, p));
    StepReachable(ps, x, Request(k, p));
  }

  /** The first endpoint gets port `p`, cannot bind it, and gets port `q`: no port is recorded any more. */
  lemma RebindForgets(ps: Partitions, x: Index, k: Key, d: Definition, p: Port, q: Port) returns (y: Index)
    requires Reachable(ps, x) && x == Empty().(info := x.info) && k in x.info && x.info[k] == d && !k.reliable
    requires d.port == d.remotePort != ILLEGAL_PORT && p != ILLEGAL_PORT && q != ILLEGAL_PORT && p != q
    ensures Reachable(ps, y) && y.info == x.info && y.services == map[k := 0]
    ensures var r := Remote(d.address, d.port, false); y.endpoints == [Endpoint(r, q)] && Used(y, r) == {}
    ensures y.clients == map[SlotFor(ps, k, d.address, d.port) := 0]
  {
    y := Requests(ps, x, k, d, p);
    assert Live(y, 0);
    StepReachable(ps, y, BindError(0, q));
    y := Step(ps, y, BindError(0, q));
  }

  /**
   Three service instances of different partitions at one server, and two ports: after the bind error of the
   first endpoint its new port is given out again, and two running endpoints have the same local port. These
   are the ports a search over a range of two ports gives in turn.
   */
  lemma RebindCollides(ps: Partitions, a: Key, b: Key, c: Key, d: Definition, p: Port, q: Port)
    returns (x: Index)
    requires !a.reliable && !b.reliable && !c.reliable && d.port == d.remotePort != ILLEGAL_PORT
    requires ps(a.service, a.instance) != ps(b.service, b.instance) && ps(b.service, b.instance) != ps(c.service, c.instance)
    requires ps(c.service, c.instance) != ps(a.service, a.instance)
    requires p != 0 && p != ILLEGAL_PORT && q != 0 && q != ILLEGAL_PORT && p != q
    ensures Reachable(ps, x) && Live(x, 0) && Live(x, 2) && x.endpoints[0] == x.endpoints[2]
    ensures x.endpoints[0].localPort == q && !PortsUnique(x)
  {
    var r := Remote(d.address, d.port, false);
    x := Offers(ps, [a, b, c], d);
    assert a in [a, b, c] && b in [a, b, c] && c in [a, b, c];
    x := RebindForgets(ps, x, a, d, p, q);
    x := Requests(ps, x, b, d, p);
    x := Requests(ps, x, c, d, q);
    assert x.services[a] == 0 && x.services[c] == 2;
    assert Holds(x, 0, r, q) && Holds(x, 2, r, q);
  }

  /** Two instances of one service of the same partition at one server: the first is taken for the second. */
  lemma SharedEndpointMisattributes(ps: Partitions, a: Key, b: Key, d: Definition) returns (x: Index)
    requires !a.reliable && !b.reliable && a.service == b.service && a.instance != b.instance
    requires ps(a.service, a.instance) == ps(b.service, b.instance) && d.port == d.remotePort != ILLEGAL_PORT
    ensures Reachable(ps, x) && a in x.services && b in x.services && x.services[a] == x.services[b]
    ensures FindInstance(x, a.service, x.services[a]) == b.instance != a.instance
  {
    x := Offers(ps, [a, b], d);
    assert a in [a, b] && b in [a, b];
    x := Requests(ps, x, a, d, 0);
    StepReachable(ps, x, Request(b, 0));
    x := Step(ps, x, Request(b, 0));
  }
}
