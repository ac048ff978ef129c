/**
 The endpoint manager: the operations of the index as the routing layer calls them.
 */
module EndpointManagers {
  import opened ClientPorts
  import opened EndpointIndex
  import opened EndpointPorts
  import opened PortConfigurations
  import opened Wrappers

  class EndpointManager {
    const partitions: Partitions
    const tcpPorts: PortConfiguration
    const udpPorts: PortConfiguration
    var info: map<Key, Definition>
    var services: map<Key, Handle>
    var clients: map<Slot, Handle>
    var instances: map<(nat, Handle), nat>
    var used: map<Remote, set<Port>>
    var endpoints: seq<Endpoint>
    ghost var stopped: set<Handle>

    ghost predicate Valid()
      reads this, tcpPorts, udpPorts
    {
      && tcpPorts != udpPorts && AllRemember(tcpPorts.clients) && AllRemember(udpPorts.clients)
      && (forall r <- used :: ILLEGAL_PORT !in used[r])
      && (forall k <- services :: services[k] < |endpoints|)
      && (forall s <- clients :: clients[s] < |endpoints|)
    }

    ghost function Model(): Index
      reads this
    {
      Index(info, services, clients, instances, used, endpoints, stopped)
    }

    constructor (partitions: Partitions, tcpPorts: PortConfiguration, udpPorts: PortConfiguration)
      requires tcpPorts != udpPorts && AllRemember(tcpPorts.clients) && AllRemember(udpPorts.clients)
      ensures Valid() && Model() == Empty()
      ensures this.partitions == partitions && this.tcpPorts == tcpPorts && this.udpPorts == udpPorts
    {
      this.partitions, this.tcpPorts, this.udpPorts := partitions, tcpPorts, udpPorts;
      info, services, clients, instances, used, endpoints, stopped := map[], map[], map[], map[], map[], [], {};
    }

    /** Stores the endpoint under the service instance as well. */
    method Share(k: Key, h: Handle)
      modifies this`services, this`instances
      ensures Model() == Attach(old(Model()), k, h)
    {
      services := services[k := h];
      instances := instances[(k.service, h) := k.instance];
    }

    method FindRemoteClient(k: Key) returns (found: Option<Handle>)
      requires Valid()
      modifies this`services, this`instances
      ensures Valid() && (found, Model()) == Find(partitions, old(Model()), k)
    {
      if k in services {
        return Some(services[k]);
      }
      if k in info {
        var slot := Slot(Remote(info[k].address, info[k].remotePort, k.reliable), partitions(k.service, k.instance));
        if slot in clients {
          var h := clients[slot];
          Share(k, h);
          return Some(h);
        }
      }
      return None;
    }

    method GetUsedClientPorts(r: Remote) returns (ports: set<Port>)
      ensures ports == Used(Model(), r)
    {
      ports := if r in used then used[r] else {};
    }

    /** What the port search gives for a service instance over the TCP clients, and over the UDP clients. */
    ghost function Tcp(service: nat, instance: nat, r: Remote): Choice
      requires Valid()
      reads this, tcpPorts, udpPorts
    {
      ClientPorts.GetClientPort(tcpPorts.clients, service, instance, r.port, Used(Model(), r))
    }

    ghost function Udp(service: nat, instance: nat, r: Remote): Choice
      requires Valid()
      reads this, tcpPorts, udpPorts
    {
      ClientPorts.GetClientPort(udpPorts.clients, service, instance, r.port, Used(Model(), r))
    }

    /** The local port for a new or rebound endpoint; the illegal port if there is none. */
    method ChoosePort(service: nat, instance: nat, r: Remote) returns (local: Port)
      requires Valid()
      modifies tcpPorts, udpPorts
      ensures Valid()
      ensures r.reliable ==>
                && local == old(Tcp(service, instance, r)).port && tcpPorts.clients == old(Tcp(service, instance, r)).clients
                && udpPorts.clients == old(udpPorts.clients)
      ensures !r.reliable ==>
                && local == old(Udp(service, instance, r)).port && udpPorts.clients == old(Udp(service, instance, r)).clients
                && tcpPorts.clients == old(tcpPorts.clients)
      ensures SameSetup(old(tcpPorts.clients), tcpPorts.clients) && SameSetup(old(udpPorts.clients), udpPorts.clients)
      ensures local != ILLEGAL_PORT ==> Offered(Model(), r, local)
      ensures local == ILLEGAL_PORT && r.reliable ==>
                Exhausted(old(tcpPorts.clients), service, instance, r.port, Used(Model(), r))
      ensures local == ILLEGAL_PORT && !r.reliable ==>
                Exhausted(old(udpPorts.clients), service, instance, r.port, Used(Model(), r))
    {
      var ports := GetUsedClientPorts(r);
      var config := if r.reliable then tcpPorts else udpPorts;
      GetClientPortSound(config.clients, service, instance, r.port, ports);
      GetClientPortKeepsSetup(config.clients, service, instance, r.port, ports);
      var ok;
      ok, local := config.GetClientPort(service, instance, r.port, ports);
    }

    method RequestUsedClientPort(r: Remote, p: Port)
      modifies this`used
      ensures Model() == EndpointIndex.Take(old(Model()), r, p)
    {
      var ports := GetUsedClientPorts(r);
      used := used[r := ports + {p}];
    }

    method ReleaseUsedClientPort(r: Remote, p: Port)
      modifies this`used
      ensures Model() == Release(old(Model()), r, p)
    {
      if r in used {
        used := used[r := used[r] - {p}];
      }
    }

    /** Files a new endpoint under its service instance and its slot. */
    method Register(k: Key, r: Remote, p: Port) returns (h: Handle)
      requires Valid() && k in info && r == Remote(info[k].address, info[k].port, k.reliable)
      requires p != ILLEGAL_PORT && r.port != ILLEGAL_PORT
      modifies this
      ensures Valid() && (Some(h), Model()) == Create(partitions, old(Model()), k, p)
    {
      h := |endpoints|;
      RequestUsedClientPort(r, p);
      Share(k, h);
      clients := clients[Slot(r, partitions(k.service, k.instance)) := h];
      endpoints := endpoints + [Endpoint(r, p)];
    }

    /** Makes an endpoint with a local port that no running endpoint towards the same remote is recorded with, from the
        ports of its own protocol. */
    method CreateRemoteClient(k: Key) returns (created: Option<Handle>, ghost local: Port)
      requires Valid()
      modifies this, tcpPorts, udpPorts
      ensures Valid() && (created, Model()) == Create(partitions, old(Model()), k, local)
      ensures k in old(info) ==>
                var r := Remote(old(info)[k].address, old(info)[k].port, k.reliable);
                && (r.port != ILLEGAL_PORT && k.reliable ==> local == old(Tcp(k.service, k.instance, r)).port)
                && (r.port != ILLEGAL_PORT && !k.reliable ==> local == old(Udp(k.service, k.instance, r)).port)
                && (local != ILLEGAL_PORT ==> Offered(old(Model()), r, local))
      ensures if k.reliable then udpPorts.clients == old(udpPorts.clients) else tcpPorts.clients == old(tcpPorts.clients)
    {
      created, local := None, ILLEGAL_PORT;
      if k in info && info[k].port != ILLEGAL_PORT {
        var r := Remote(info[k].address, info[k].port, k.reliable);
        var p := ChoosePort(k.service, k.instance, r);
        local := p;
        if p != ILLEGAL_PORT {
          var h := Register(k, r, p);
          created := Some(h);
        }
      }
    }

    method FindOrCreateRemoteClient(k: Key) returns (h: Option<Handle>, ghost local: Port)
      requires Valid()
      modifies this, tcpPorts, udpPorts
      ensures Valid() && (h, Model()) == FindOrCreate(partitions, old(Model()), k, local)
      ensures Enabled(old(Model()), Request(k, local)) && Model() == Step(partitions, old(Model()), Request(k, local))
      ensures Find(partitions, old(Model()), k).0.None? && k in old(info) && old(info)[k].port != ILLEGAL_PORT ==>
                var r := Remote(old(info)[k].address, old(info)[k].port, k.reliable);
                if k.reliable then local == old(Tcp(k.service, k.instance, r)).port
                else local == old(Udp(k.service, k.instance, r)).port
    {
      local := 0;
      h := FindRemoteClient(k);
      if h.None? {
        h, local := CreateRemoteClient(k);
      }
    }

    method AddRemoteServiceInfo(k: Key, d: Definition)
      requires Valid()
      modifies this
      ensures Valid() && Model() == Step(partitions, old(Model()), Offer(k, d))
    {
      info := info[k := d];
      if k.reliable {
        var found := FindRemoteClient(k);
      }
    }

    method AddBothServiceInfos(service: nat, instance: nat, tcp: Definition, udp: Definition)
      requires Valid()
      modifies this
      ensures Valid() && Model() == Step(partitions, old(Model()), OfferBoth(service, instance, tcp, udp))
    {
      info := info[Key(service, instance, false) := udp];
      info := info[Key(service, instance, true) := tcp];
      var found := FindRemoteClient(Key(service, instance, false));
      found := FindRemoteClient(Key(service, instance, true));
    }

    method ClearRemoteServiceInfo(k: Key)
      requires Valid()
      modifies this
      ensures Valid() && Model() == Step(partitions, old(Model()), Withdraw(k))
    {
      info := info - {k};
    }

    /** Whether another service instance can still be reached through the endpoint. */
    method IsInUse(h: Handle, reliable: bool) returns (inUse: bool)
      ensures inUse <==> InUse(services, h, reliable)
    {
      var todo := services.Keys;
      while todo != {}
        invariant todo <= services.Keys
        invariant forall k <- services :: k !in todo ==> !(k.reliable == reliable && services[k] == h)
      {
        var k :| k in todo;
        if k.reliable == reliable && services[k] == h {
          return true;
        }
        todo := todo - {k};
      }
      return false;
    }

    /** Stops an endpoint that reports `reported` as its local port. */
    method Stop(k: Key, h: Handle, reported: Port)
      requires Valid() && h < |endpoints|
      modifies this`clients, this`used, this`stopped
      ensures Valid() && Model() == StopEndpoint(partitions, old(Model()), k, h, reported)
    {
      var r := endpoints[h].remote;
      var slot := Slot(r, partitions(k.service, k.instance));
      if slot in clients && clients[slot] == h {
        clients := clients - {slot};
      }
      ReleaseUsedClientPort(r, reported);
      stopped := stopped + {h};
    }

    method ClearClientEndpoints(k: Key, reported: Port)
      requires Valid() && Enabled(Model(), Gone(k, reported))
      modifies this
      ensures Valid() && Model() == Step(partitions, old(Model()), Gone(k, reported))
    {
      if k in services {
        var h := services[k];
        instances := instances - {(k.service, h)};
        services := services - {k};
        assert Model() == Detach(old(Model()), k);
        var inUse := IsInUse(h, k.reliable);
        if !inUse {
          Stop(k, h, reported);
        }
      }
    }

    /** Gives an endpoint another local port, and releases the old one. */
    method SetLocalPort(h: Handle, local: Port)
      requires Valid() && h < |endpoints|
      modifies this`endpoints, this`used
      ensures Valid() && Model() == Rebind(old(Model()), h, local)
    {
      var before := endpoints[h].localPort;
      endpoints := endpoints[h := endpoints[h].(localPort := local)];
      ReleaseUsedClientPort(endpoints[h].remote, before);
    }

    /** A service instance of the endpoint's protocol that uses it. */
    ghost predicate UsesEndpoint(k: Key, h: Handle)
      requires h < |endpoints|
      reads this
    {
      k in services && services[k] == h && k.reliable == endpoints[h].remote.reliable
    }

    /** Every service instance among `keys` that uses the endpoint has found no port. */
    ghost predicate NoPortFor(keys: set<Key>, h: Handle, setup: seq<Client>)
      requires h < |endpoints|
      reads this
    {
      var r := endpoints[h].remote;
      forall k <- keys :: UsesEndpoint(k, h) ==> Exhausted(setup, k.service, k.instance, r.port, Used(Model(), r))
    }

    /** The port is what the search over these clients, whatever they used last, gives for a user of the endpoint. */
    ghost predicate PortFound(h: Handle, setup: seq<Client>, p: Port)
      requires Valid() && h < |endpoints|
      reads this, tcpPorts, udpPorts
    {
      var r := endpoints[h].remote;
      exists k: Key, cs: seq<Client> :: UsesEndpoint(k, h) && SameSetup(setup, cs) && AllRemember(cs)
        && p == ClientPorts.GetClientPort(cs, k.service, k.instance, r.port, Used(Model(), r)).port
    }

    /** Gives an endpoint another local port, chosen for any of the service instances that use it from the ports of
        their protocol. */
    method OnBindError(h: Handle) returns (ok: bool, ghost p: Port)
      requires Valid() && h < |endpoints|
      modifies this, tcpPorts, udpPorts
      ensures Valid()
      ensures if ok then Enabled(old(Model()), BindError(h, p)) && Model() == Step(partitions, old(Model()), BindError(h, p))
              else Model() == old(Model())
      ensures old(endpoints[h].remote.reliable) ==>
                && udpPorts.clients == old(udpPorts.clients)
                && (ok ==> old(PortFound(h, tcpPorts.clients, p)))
                && (!ok ==> NoPortFor(services.Keys, h, old(tcpPorts.clients)))
      ensures !old(endpoints[h].remote.reliable) ==>
                && tcpPorts.clients == old(tcpPorts.clients)
                && (ok ==> old(PortFound(h, udpPorts.clients, p)))
                && (!ok ==> NoPortFor(services.Keys, h, old(udpPorts.clients)))
    {
      var todo := services.Keys;
      p := ILLEGAL_PORT;
      var r := endpoints[h].remote;
      ghost var setup := if r.reliable then tcpPorts.clients else udpPorts.clients;
      while todo != {}
        invariant todo <= services.Keys && Valid() && Model() == old(Model())
        invariant SameSetup(setup, if r.reliable then tcpPorts.clients else udpPorts.clients)
        invariant if r.reliable then udpPorts.clients == old(udpPorts.clients) else tcpPorts.clients == old(tcpPorts.clients)
        invariant NoPortFor(services.Keys - todo, h, setup)
      {
        var k :| k in todo;
        if k.reliable == r.reliable && services[k] == h {
          ghost var clients := if r.reliable then tcpPorts.clients else udpPorts.clients;
          SameExhausted(setup, clients, k.service, k.instance, r.port, Used(Model(), r));
          assert UsesEndpoint(k, h) && SameSetup(setup, clients) && AllRemember(clients);
          var local := ChoosePort(k.service, k.instance, r);
          if local != ILLEGAL_PORT {
            SetLocalPort(h, local);
            return true, local;
          }
        }
        todo := todo - {k};
      }
      return false, p;
    }

    /** The service instance a message that arrives through an endpoint belongs to, where endpoints are not shared
        between instances of one service. */
    method FindInstance(service: nat, h: Handle) returns (instance: nat)
      ensures instance == EndpointIndex.FindInstance(Model(), service, h)
      ensures AllAttributed(Model()) ==>
                forall k <- services :: k.service == service && services[k] == h ==> instance == k.instance
    {
      instance := if (service, h) in instances then instances[(service, h)] else 0xFFFF;
    }
  }
}
