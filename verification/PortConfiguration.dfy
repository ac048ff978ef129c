/**
 The port search as the configuration runs it, updating the ports each client used last.
 */
module PortConfigurations {
  import opened ClientPorts
  import opened Wrappers

  /** The first free port from `from` to `last`. */
  method FindFree(from: Port, last: Port, used: set<Port>) returns (found: Option<Port>)
    requires ILLEGAL_PORT !in used
    ensures found == FirstFree(from, last, used)
  {
    var p: Port := from;
    while p <= last
      invariant FirstFree(from, last, used) == FirstFree(p, last, used)
      decreases 0x1_0000 - p
    {
      if p !in used {
        return Some(p);
      }
      p := p + 1;
    }
    return None;
  }

  class PortConfiguration {
    var clients: seq<Client>

    constructor (clients: seq<Client>)
      ensures this.clients == clients
    {
      this.clients := clients;
    }

    /** Continues the search of one client behind the port it used last. */
    method TryNext(i: nat, used: set<Port>) returns (found: Option<Port>)
      requires i < |clients| && ILLEGAL_PORT !in used
      modifies this
      ensures var (p, c) := Continue(old(clients[i]), used);
              found == p && clients == old(clients)[i := c]
    {
      var c := clients[i];
      var start := ILLEGAL_PORT;
      if c.lastUsed != ILLEGAL_PORT && InRange(c, c.lastUsed) {
        start := Next(c.lastUsed);
        c := c.(lastUsed := Next(start));
      } else {
        c := c.(lastUsed := Next(c.lastUsed));
        if c.lastUsed != ILLEGAL_PORT {
          clients := clients[i := c];
          return None;
        }
        start := c.first;
      }
      found := FindFree(start, c.last, used);
      clients := clients[i := if found.Some? then c.(lastUsed := found.value) else c];
    }

    method TryFirst(i: nat, used: set<Port>) returns (found: Option<Port>)
      requires i < |clients| && ILLEGAL_PORT !in used
      modifies this
      ensures var (p, c) := ClientPorts.Restart(old(clients[i]), used);
              found == p && clients == old(clients)[i := c]
    {
      var c := clients[i];
      found := FindFree(c.first, c.last, used);
      clients := clients[i := if found.Some? then c.(lastUsed := found.value) else c];
    }

    /** One pass over all clients that match the remote port. */
    method TryAll(remote: Port, used: set<Port>, again: bool) returns (found: Option<Port>, configured: bool)
      requires ILLEGAL_PORT !in used
      modifies this
      ensures (found, clients) == Pass(old(clients), 0, remote, used, again)
      ensures found.Some? ==> configured
      ensures found.None? ==> (configured <==> Configured(old(clients), remote))
    {
      var i := 0;
      found, configured := None, false;
      while i < |clients|
        invariant i <= |clients| == |old(clients)|
        invariant Pass(old(clients), 0, remote, used, again) == Pass(clients, i, remote, used, again)
        invariant forall j | i <= j < |clients| :: clients[j] == old(clients)[j]
        invariant configured <==> exists j | 0 <= j < i :: Matches(old(clients)[j], remote)
      {
        if Matches(clients[i], remote) {
          configured := true;
          if again {
            found := TryFirst(i, used);
          } else {
            found := TryNext(i, used);
          }
          if found.Some? {
            return;
          }
        }
        i := i + 1;
      }
      found := None;
    }

    /** Forgets the last ports of the clients that match the remote port. */
    method ForgetLast(remote: Port)
      modifies this
      ensures clients == Reset(old(clients), remote)
    {
      var i := 0;
      while i < |clients|
        invariant i <= |clients| == |old(clients)|
        invariant forall j | 0 <= j < i :: clients[j] == Reset(old(clients), remote)[j]
        invariant forall j | i <= j < |clients| :: clients[j] == old(clients)[j]
      {
        if Matches(clients[i], remote) {
          clients := clients[i := clients[i].(lastUsed := ILLEGAL_PORT)];
        }
        i := i + 1;
      }
    }

    method FindPort(remote: Port, used: set<Port>) returns (configured: bool, port: Port)
      requires ILLEGAL_PORT !in used
      modifies this
      ensures Choice(configured, port, clients) == ClientPorts.FindPort(old(clients), remote, used)
    {
      var found;
      found, configured := TryAll(remote, used, false);
      if found.Some? {
        return true, found.value;
      }
      ForgetLast(remote);
      var known;
      found, known := TryAll(remote, used, true);
      return found.Some? || configured, if found.Some? then found.value else ILLEGAL_PORT;
    }

    /** The position of a port in the ordered set of a client's ports. */
    method Position(s: seq<Port>, p: Port) returns (k: nat)
      ensures k == IndexOf(s, p)
    {
      k := 0;
      while k < |s| && s[k] != p
        invariant k <= |s| && IndexOf(s, p) == k + IndexOf(s[k..], p)
      {
        k := k + 1;
      }
    }

    /** Searches behind the last port only: the source's fallback looks for a free port among the
        ports in use, where there is none. */
    method FindSpecificPort(service: nat, instance: nat, used: set<Port>) returns (configured: bool, port: Port)
      requires AllRemember(clients)
      modifies this
      ensures Choice(configured, port, clients) == ClientPorts.FindSpecificPort(old(clients), service, instance, used)
    {
      var k := 0;
      while k < |clients| && !(clients[k].service == service && clients[k].instance == instance)
        invariant k <= |clients|
        invariant FindClient(clients, service, instance) == k + FindClient(clients[k..], service, instance)
      {
        k := k + 1;
      }
      if k == |clients| || clients[k].specific == [] {
        return false, ILLEGAL_PORT;
      }
      var c := clients[k];
      var i := 0;
      if c.lastSpecific != ILLEGAL_PORT {
        i := Position(c.specific, c.lastSpecific);
        i := if i + 1 < |c.specific| then i + 1 else 0;
      }
      while i < |c.specific|
        invariant i <= |c.specific|
        invariant FirstFreeAt(c.specific, SearchStart(c), used) == FirstFreeAt(c.specific, i, used)
      {
        if c.specific[i] !in used {
          port := c.specific[i];
          clients := clients[k := c.(lastSpecific := port)];
          return true, port;
        }
        i := i + 1;
      }
      clients := clients[k := c.(lastSpecific := ILLEGAL_PORT)];
      return true, ILLEGAL_PORT;
    }

    method GetClientPort(service: nat, instance: nat, remote: Port, used: set<Port>) returns (ok: bool, port: Port)
      requires AllRemember(clients) && ILLEGAL_PORT !in used
      modifies this
      ensures var r := ClientPorts.GetClientPort(old(clients), service, instance, remote, used);
              clients == r.clients && port == r.port && (ok <==> port != ILLEGAL_PORT)
      ensures AllRemember(clients)
    {
      GetClientPortSound(clients, service, instance, remote, used);
      var isConfigured;
      isConfigured, port := FindSpecificPort(service, instance, used);
      if port != ILLEGAL_PORT {
        return true, port;
      }
      var generic;
      generic, port := FindPort(remote, used);
      if port != ILLEGAL_PORT {
        return true, port;
      }
      if !isConfigured && !generic {
        return true, 0;
      }
      return false, ILLEGAL_PORT;
    }
  }
}
