// Reloading the access configuration: teardown, replacement, and restoration when the new sockets cannot be bound
// (crates/ws-net-access/src/config_reload.rs, crates/ws-net-access/src/listeners.rs,
// crates/ws-net-access/src/gateway.rs `connect_all_registered`, crates/ws-net-access/src/main.rs).
module ConfigReload {
  import opened Basics
  import opened AccessRouting

  // A set of connection pools, one for each gateway, shared by the client and its running listeners.
  class Connections {
    const pools: seq<AccessGateway>
    const poolSize: nat
    var stopped: bool

    constructor (pools: seq<AccessGateway>, poolSize: nat)
      ensures this.pools == pools && this.poolSize == poolSize && !stopped
    {
      this.pools, this.poolSize, this.stopped := pools, poolSize, false;
    }
  }

  // Listeners keep the application state they were started with.
  datatype Running = Running(listeners: seq<Listener>, connections: Connections, defaultUrl: Option<string>)

  datatype Outcome = Rejected | Applied | Restored | Down

  // `PreparedListeners::new`, given which listeners' TLS set-up succeeds; only HTTP listeners have one.
  ghost predicate Prepared(listeners: seq<Listener>, tls: Listener -> bool) {
    && (forall i :: 0 <= i < |listeners| ==> Trim(listeners[i].name) != "" && (listeners[i].http ==> tls(listeners[i])))
    && (forall i, j :: 0 <= i < |listeners| && 0 <= j < |listeners| && i != j ==>
         listeners[i].name != listeners[j].name)
  }

  ghost predicate AllParse(gateways: seq<AccessGateway>, parses: string -> bool) {
    forall i :: 0 <= i < |gateways| ==> parses(gateways[i].serverUrl)
  }

  method PrepareListeners(listeners: seq<Listener>, tls: Listener -> bool) returns (ok: bool)
    ensures ok <==> Prepared(listeners, tls)
  {
    var names: set<string> := {};
    for i := 0 to |listeners|
      invariant names == set k | 0 <= k < i :: listeners[k].name
      invariant Prepared(listeners[..i], tls)
    {
      var l := listeners[i];
      if Trim(l.name) == "" || l.name in names {
        return false;
      }
      if l.http && !tls(l) {
        return false;
      }
      names := names + {l.name};
      assert listeners[..i + 1] == listeners[..i] + [l];
      assert forall k :: 0 <= k < i ==> listeners[..i][k].name in names - {l.name};
    }
    assert listeners[..|listeners|] == listeners;
    return true;
  }

  // `runtime.identity(..)` for every gateway.
  method CheckIdentities(gateways: seq<AccessGateway>, parses: string -> bool) returns (ok: bool)
    ensures ok <==> AllParse(gateways, parses)
  {
    for i := 0 to |gateways|
      invariant AllParse(gateways[..i], parses)
    {
      if !parses(gateways[i].serverUrl) {
        return false;
      }
      assert gateways[..i + 1] == gateways[..i] + [gateways[i]];
    }
    assert gateways[..|gateways|] == gateways;
    return true;
  }

  // A configuration that passes every check before anything is torn down.
  ghost predicate Startable(config: AccessConfig, parses: string -> bool, tls: Listener -> bool) {
    Accepted(config) && AllParse(Gateways(config), parses) && Prepared(config.listeners, tls)
  }

  function PoolSize(config: AccessConfig): nat {
    if config.poolSize == 0 then 1 else config.poolSize
  }

  class AccessClient {
    const parses: string -> bool
    const tls: Listener -> bool
    var config: AccessConfig
    var connections: Connections
    var defaultUrl: Option<string>
    var running: Option<Running>

    // Configuration, default URL, connections and listeners belong together, or nothing is running.
    ghost predicate Valid()
      reads this, connections
    {
      && Startable(config, parses, tls)
      && defaultUrl == DefaultServerUrl(config)
      && (running.Some? ==>
           && running.value == Running(config.listeners, connections, defaultUrl)
           && !connections.stopped
           && connections.pools == Gateways(config) && connections.poolSize == PoolSize(config))
    }

    // `run` in main.rs, after its sockets are bound.
    constructor (config: AccessConfig, connections: Connections, defaultUrl: Option<string>,
                 parses: string -> bool, tls: Listener -> bool)
      requires Startable(config, parses, tls) && defaultUrl == DefaultServerUrl(config)
      requires connections.pools == Gateways(config) && connections.poolSize == PoolSize(config) && !connections.stopped
      ensures Valid() && running.Some? && this.config == config && this.connections == connections
      ensures this.parses == parses && this.tls == tls
    {
      this.parses, this.tls := parses, tls;
      this.config, this.connections, this.defaultUrl := config, connections, defaultUrl;
      this.running := Some(Running(config.listeners, connections, defaultUrl));
    }

    // `connect_all_registered`: only a bad gateway list or URL makes it fail, and then nothing was started.
    method ConnectAll(config: AccessConfig) returns (r: Option<Connections>)
      ensures r.Some? <==> Accepted(config) && AllParse(Gateways(config), parses)
      ensures r.Some? ==> fresh(r.value) && !r.value.stopped
                          && r.value.pools == Gateways(config) && r.value.poolSize == PoolSize(config)
      ensures r.Some? ==> r.value.poolSize >= 1 && (config.poolSize >= 1 ==> r.value.poolSize == config.poolSize)
    {
      var gateways := GatewayConfigs(config);
      if gateways.Err? {
        return None;
      }
      var ok := CheckIdentities(gateways.value, parses);
      if !ok {
        return None;
      }
      var connections := new Connections(gateways.value, PoolSize(config));
      return Some(connections);
    }

    // The checks `reload_access_config` makes while the old set-up still runs.
    method Precheck(file: Option<AccessConfig>) returns (ok: bool)
      requires Startable(config, parses, tls)
      ensures ok <==> file.Some? && Startable(file.value, parses, tls)
    {
      if file.None? {
        return false;
      }
      var gateways := GatewayConfigs(file.value);
      if gateways.Err? {
        return false;
      }
      var prepared := PrepareListeners(file.value.listeners, tls);
      if !prepared {
        return false;
      }
      var previous := PrepareListeners(config.listeners, tls);
      if !previous {
        return false;
      }
      ok := CheckIdentities(gateways.value, parses);
    }

    // `file` is what the file parses to, if it does; `bindNew` and `bindOld` whether the sockets can be bound.
    method Reload(file: Option<AccessConfig>, bindNew: bool, bindOld: bool) returns (outcome: Outcome)
      requires Valid()
      modifies this, connections
      ensures Valid()
      ensures outcome == Rejected <==> !(file.Some? && Startable(file.value, parses, tls))
      ensures outcome == Rejected ==> running == old(running) && config == old(config) && defaultUrl == old(defaultUrl)
                                      && connections == old(connections)
                                      && connections.stopped == old(connections.stopped)
      ensures outcome != Rejected ==> outcome == if bindNew then Applied else if bindOld then Restored else Down
      ensures outcome != Rejected ==> old(connections).stopped
      ensures outcome == Applied ==> config == file.value && running.Some? && fresh(connections)
      ensures outcome == Restored ==> config == old(config) && running.Some? && fresh(connections)
      ensures outcome == Down ==> config == old(config) && running == None
    {
      var ok := Precheck(file);
      if !ok {
        return Rejected;
      }
      running := None;
      connections.stopped := true;
      var replacement: Option<Connections> := None;
      if bindNew {
        replacement := ConnectAll(file.value);
      }
      if replacement.None? {
        if !bindOld {
          return Down;
        }
        var restored := ConnectAll(config);
        if restored.None? {
          return Down;
        }
        connections := restored.value;
        running := Some(Running(config.listeners, connections, defaultUrl));
        return Restored;
      }
      connections := replacement.value;
      defaultUrl := ComputeDefaultUrl(file.value);
      running := Some(Running(file.value.listeners, connections, defaultUrl));
      config := file.value;
      return Applied;
    }
  }

  // Reload never repeats the routing check made at start-up, and need not: in every state it can reach, each running
  // listener finds its pool among live connections.
  lemma RunningListenersRoute(client: AccessClient, i: nat)
    requires client.Valid() && client.running.Some? && i < |client.running.value.listeners|
    ensures var r := client.running.value;
            && !r.connections.stopped && r.connections.poolSize >= 1
            && (client.config.poolSize >= 1 ==> r.connections.poolSize == client.config.poolSize)
            && ForListener(r.connections.pools, r.listeners[i], r.defaultUrl).Ok?
  {
    EveryListenerRoutes(client.config, i);
  }
}
