/**
Hot reload of the public tunnel listeners: `ListenerManager` of
crates/gaterust-tunnel/src/server/mod.rs, against an operating system that may refuse any
socket at any time.
*/
module Listeners {
  import opened Options
  import opened TunnelConfigs
  import opened TunnelRuntimes
  import TunnelState

  /**
  The sockets of the machine. The process holds `held`; at the n-th attempt to bind, everybody
  else holds `others(n)`, which may be anything.
  */
  class OperatingSystem {
    const others: nat -> set<Socket>
    var held: set<Socket>
    var attempts: nat

    constructor (others: nat -> set<Socket>)
      ensures this.others == others && held == {} && attempts == 0
    {
      this.others := others;
      held, attempts := {}, 0;
    }

    method Bind(socket: Socket) returns (ok: bool)
      modifies this
      ensures attempts == old(attempts) + 1
      ensures ok <==> socket !in old(held) && socket !in others(old(attempts))
      ensures held == if ok then old(held) + {socket} else old(held)
    {
      ok := socket !in held && socket !in others(attempts);
      if ok {
        held := held + {socket};
      }
      attempts := attempts + 1;
    }

    method Close(socket: Socket)
      modifies this`held
      ensures held == old(held) - {socket}
    {
      held := held - {socket};
    }
  }

  /** A running listener: its configuration, the limiter object it draws on, its own identity, and
      the configuration its task was started with and goes on using. */
  datatype Listener = Listener(config: TunnelConfig, limiter: nat, identity: nat, started: TunnelConfig)

  /** What a listener's task depends on. */
  datatype Parameters =
    | ForStreams(name: string, kind: Kind, bind: Address, limit: Option<nat>, maxConnections: nat)
    | ForDatagrams(name: string, bind: Address, limit: Option<nat>, maxSessions: nat, idleSeconds: nat)

  function ParametersOf(c: TunnelConfig): Parameters {
    if c.kind == Udp then ForDatagrams(c.name, c.bind, c.limit, c.maxUdpSessions, c.udpIdleSeconds)
    else ForStreams(c.name, c.kind, c.bind, c.limit, c.maxConnections)
  }

  /** Every listener's task runs with the parameters that are configured for it. */
  predicate RunsAsConfigured(active: map<string, Listener>) {
    forall name <- active :: ParametersOf(active[name].started) == ParametersOf(active[name].config)
  }

  datatype LimiterEntry = LimiterEntry(limit: Option<nat>, limiter: nat)

  predicate SameListener(current: TunnelConfig, updated: TunnelConfig) {
    && current.name == updated.name
    && current.kind == updated.kind
    && current.bind == updated.bind
    && current.limit == updated.limit
    && (if current.kind == Udp then
          current.maxUdpSessions == updated.maxUdpSessions && current.udpIdleSeconds == updated.udpIdleSeconds
        else current.maxConnections == updated.maxConnections)
  }

  /** The comparison keeps a listener running exactly if nothing its task depends on changes. */
  lemma SameListenerExactly(current: TunnelConfig, updated: TunnelConfig)
    ensures SameListener(current, updated) <==> ParametersOf(current) == ParametersOf(updated)
  {
  }

  /** The listener survives the change to `desired`. */
  predicate Survives(active: map<string, Listener>, desired: map<string, TunnelConfig>, name: string) {
    name in active && name in desired && SameListener(active[name].config, desired[name])
  }

  function Sockets(active: map<string, Listener>): set<Socket> {
    set name | name in active :: SocketOf(active[name].config)
  }

  function Configs(active: map<string, Listener>): map<string, TunnelConfig> {
    map name | name in active :: active[name].config
  }

  predicate SocketsDistinct(active: map<string, Listener>) {
    forall a, b | a in active && b in active && a != b :: SocketOf(active[a].config) != SocketOf(active[b].config)
  }

  predicate NamedByConfig(active: map<string, Listener>) {
    forall name <- active :: active[name].config.name == name
  }

  predicate LimiterAgrees(listener: Listener, limiters: map<string, LimiterEntry>, name: string) {
    name in limiters && limiters[name] == LimiterEntry(listener.config.limit, listener.limiter)
  }

  predicate AllAgree(active: map<string, Listener>, limiters: map<string, LimiterEntry>) {
    forall name <- active :: LimiterAgrees(active[name], limiters, name)
  }

  predicate ValidConfigs(configs: seq<TunnelConfig>) {
    NamesUnique(configs) && SocketsUnique(configs)
  }

  /** On the way from `before` to the wanted configuration: the survivors run on untouched, and
      whatever else runs is as wanted. */
  predicate Under(active: map<string, Listener>, before: map<string, Listener>, desired: map<string, TunnelConfig>) {
    && (forall name <- before | Survives(before, desired, name) :: name in active)
    && (forall name <- active ::
          && name in desired
          && if Survives(before, desired, name) then active[name] == before[name] else active[name].config == desired[name])
  }

  /** The process could not have got `socket` at the n-th attempt. */
  predicate Unavailable(os: OperatingSystem, reserved: set<Socket>, socket: Socket, n: nat) {
    socket in os.others(n) || socket in reserved
  }

  /** One of the wanted sockets was held by somebody else at one of the attempts. */
  ghost predicate Refused(wanted: set<Socket>, os: OperatingSystem, reserved: set<Socket>, from: nat, to: nat) {
    exists socket, n | socket in wanted && from <= n < to :: Unavailable(os, reserved, socket, n)
  }

  /** Limiters are never dropped on the way, and replaced only where the wanted rate differs. */
  predicate LimitersFollow(before: map<string, LimiterEntry>, after: map<string, LimiterEntry>, desired: map<string, TunnelConfig>) {
    && before.Keys <= after.Keys <= before.Keys + desired.Keys
    && forall name <- before | name !in desired || before[name].limit == desired[name].limit :: after[name] == before[name]
  }

  function Restrict(limiters: map<string, LimiterEntry>, names: set<string>): map<string, LimiterEntry> {
    map name | name in limiters && name in names :: limiters[name]
  }

  lemma LimitersFollowOn(a: map<string, LimiterEntry>, b: map<string, LimiterEntry>, c: map<string, LimiterEntry>,
                         desired: map<string, TunnelConfig>)
    requires LimitersFollow(a, b, desired) && LimitersFollow(b, c, desired)
    ensures LimitersFollow(a, c, desired)
  {
  }

  function SocketsOf(configs: seq<TunnelConfig>): set<Socket> {
    set c | c in configs :: SocketOf(c)
  }

  lemma SocketsAdd(active: map<string, Listener>, name: string, listener: Listener)
    requires name !in active
    ensures Sockets(active[name := listener]) == Sockets(active) + {SocketOf(listener.config)}
  {
    var after := active[name := listener];
    forall socket | socket in Sockets(active) ensures socket in Sockets(after) {
      var other :| other in active && SocketOf(active[other].config) == socket;
      assert after[other] == active[other];
    }
    assert SocketOf(after[name].config) in Sockets(after);
  }

  lemma AddListener(active: map<string, Listener>, listener: Listener)
    requires NamedByConfig(active) && SocketsDistinct(active) && RunsAsConfigured(active) && listener.config.name !in active
    requires listener.started == listener.config
    requires forall name <- active :: SocketOf(active[name].config) != SocketOf(listener.config)
    ensures var after := active[listener.config.name := listener];
            && NamedByConfig(after) && SocketsDistinct(after) && RunsAsConfigured(after)
            && Sockets(after) == Sockets(active) + {SocketOf(listener.config)}
  {
    SocketsAdd(active, listener.config.name, listener);
  }

  lemma LimitersStillAgree(active: map<string, Listener>, before: map<string, LimiterEntry>, after: map<string, LimiterEntry>, name: string)
    requires AllAgree(active, before) && name !in active && name in after && after == before[name := after[name]]
    ensures AllAgree(active, after)
  {
  }

  lemma RefusedWider(wanted: set<Socket>, os: OperatingSystem, reserved: set<Socket>, earlier: nat, from: nat, to: nat)
    requires Refused(wanted, os, reserved, from, to) && earlier <= from
    ensures Refused(wanted, os, reserved, earlier, to)
  {
  }

  lemma AllRunning(active: map<string, Listener>, before: map<string, Listener>, configs: seq<TunnelConfig>)
    requires NamesUnique(configs) && Under(active, before, ByName(configs)) && forall c <- configs :: c.name in active
    ensures active.Keys == ByName(configs).Keys
  {
    ByNameFinds(configs);
  }

  lemma SocketsDrop(active: map<string, Listener>, name: string)
    requires name in active && SocketsDistinct(active)
    ensures Sockets(active - {name}) == Sockets(active) - {SocketOf(active[name].config)}
  {
    var after := active - {name};
    forall socket | socket in Sockets(active) && socket != SocketOf(active[name].config) ensures socket in Sockets(after) {
      var other :| other in active && SocketOf(active[other].config) == socket;
      assert after[other] == active[other];
    }
  }

  /** Two listeners of a wanted configuration never want the same socket. */
  lemma WantedSocketsDistinct(configs: seq<TunnelConfig>, a: string, b: string)
    requires ValidConfigs(configs) && a in ByName(configs) && b in ByName(configs) && a != b
    ensures SocketOf(ByName(configs)[a]) != SocketOf(ByName(configs)[b])
  {
    ByNameFinds(configs);
    var i :| 0 <= i < |configs| && configs[i] == ByName(configs)[a];
    var j :| 0 <= j < |configs| && configs[j] == ByName(configs)[b];
    assert i != j;
  }

  /** A configuration that is not running yet wants a socket no running listener has. */
  lemma WantedSocketFree(active: map<string, Listener>, before: map<string, Listener>, configs: seq<TunnelConfig>, i: nat)
    requires ValidConfigs(configs) && i < |configs| && configs[i].name !in active
    requires Under(active, before, ByName(configs))
    ensures forall name <- active :: SocketOf(active[name].config) != SocketOf(configs[i])
  {
    ByNameFinds(configs);
    forall name | name in active ensures SocketOf(active[name].config) != SocketOf(configs[i]) {
      WantedSocketsDistinct(configs, name, configs[i].name);
    }
  }

  /** What a running listener takes over never touches its socket or its rate. */
  lemma TakenOver(started: map<string, Listener>, active: map<string, Listener>, before: map<string, Listener>,
                  desired: map<string, TunnelConfig>)
    requires Under(started, before, desired) && SocketsDistinct(started) && RunsAsConfigured(started)
    requires forall name <- desired :: desired[name].name == name
    requires active.Keys == started.Keys
    requires forall name <- active :: name in desired && active[name] == started[name].(config := desired[name])
    ensures NamedByConfig(active) && SocketsDistinct(active) && RunsAsConfigured(active) && Sockets(active) == Sockets(started)
    ensures forall name <- active :: active[name].config.limit == started[name].config.limit
  {
    forall name | name in active
      ensures SocketOf(active[name].config) == SocketOf(started[name].config)
      ensures active[name].config.limit == started[name].config.limit
      ensures ParametersOf(active[name].started) == ParametersOf(active[name].config)
    {
      assert name in started;
      if Survives(before, desired, name) {
        SameListenerExactly(before[name].config, desired[name]);
      }
    }
  }

  lemma ListedExactly(list: seq<TunnelConfig>, active: map<string, Listener>)
    requires NamesUnique(list) && NamedByConfig(active) && SocketsDistinct(active)
    requires forall c <- list :: c.name in active && c == active[c.name].config
    requires forall name <- active :: active[name].config in list
    ensures ValidConfigs(list) && ByName(list) == Configs(active) && SocketsOf(list) == Sockets(active)
  {
    ByNameFinds(list);
    forall name | name in active ensures name in ByName(list) && ByName(list)[name] == active[name].config {
      assert active[name].config in list;
    }
    forall socket | socket in SocketsOf(list) ensures socket in Sockets(active) {
      var c :| c in list && SocketOf(c) == socket;
      assert SocketOf(active[c.name].config) == socket;
    }
  }

  /** After a failed change, only listeners that were never touched are as they were before it:
      `SameListener` is symmetric, so nothing newly started can pass for an old one. */
  lemma OnlyUntouchedSurviveBack(active: map<string, Listener>, before: map<string, Listener>,
                                 desired: map<string, TunnelConfig>, name: string)
    requires Under(active, before, desired) && Survives(active, Configs(before), name)
    ensures active[name] == before[name]
  {
    if !Survives(before, desired, name) {
      assert SameListener(before[name].config, desired[name]);
    }
  }

  lemma LimitersRestored(limiters: map<string, LimiterEntry>, previous: map<string, LimiterEntry>, before: map<string, Listener>)
    requires limiters.Keys == before.Keys && before.Keys <= previous.Keys
    requires forall name <- before :: limiters[name] == previous[name]
    ensures limiters == Restrict(previous, before.Keys) && (previous.Keys == before.Keys ==> limiters == previous)
  {
  }

  /** Sockets that the process itself does not reserve can only be refused because of others. */
  lemma RefusedByOthers(wanted: set<Socket>, os: OperatingSystem, reserved: set<Socket>, from: nat, to: nat)
    requires Refused(wanted, os, reserved, from, to) && wanted !! reserved
    ensures exists n | from <= n < to :: os.others(n) * wanted != {}
  {
    var socket, n :| socket in wanted && from <= n < to && Unavailable(os, reserved, socket, n);
    assert socket in os.others(n) * wanted;
  }

  datatype Outcome = Applied | RolledBack | Broken

  lemma MinusOneMore(m: map<string, Listener>, names: set<string>, name: string)
    ensures m - names - {name} == m - (names + {name})
  {
  }

  class ListenerManager {
    const os: OperatingSystem
    const runtime: TunnelRuntime
    /** Sockets of this process that are not tunnel listeners: the QUIC endpoint. */
    var reserved: set<Socket>
    var active: map<string, Listener>
    var limiters: map<string, LimiterEntry>
    var limitersMade: nat
    var listenersMade: nat

    ghost predicate SocketsValid()
      reads this, os
    {
      && NamedByConfig(active) && SocketsDistinct(active) && RunsAsConfigured(active)
      && Sockets(active) !! reserved
      && os.held == Sockets(active) + reserved
    }

    ghost predicate LimitersAgree()
      reads this
    {
      AllAgree(active, limiters)
    }

    ghost predicate Valid()
      reads this, os
    {
      SocketsValid() && LimitersAgree()
    }

    /** Nothing is left over from an earlier failure. */
    ghost predicate Settled()
      reads this, os, runtime
    {
      && Valid()
      && limiters.Keys == active.Keys
      && runtime.tunnels == Specs(Configs(active))
    }

    constructor (os: OperatingSystem, runtime: TunnelRuntime)
      requires runtime.tunnels == map[]
      ensures this.os == os && this.runtime == runtime && reserved == os.held
      ensures Settled() && active == map[]
    {
      this.os, this.runtime, reserved := os, runtime, os.held;
      active, limiters := map[], map[];
      limitersMade, listenersMade := 0, 0;
    }

    method Stop(name: string)
      requires SocketsValid() && name in active
      modifies this`active, os`held
      ensures SocketsValid() && active == old(active) - {name}
    {
      var socket := SocketOf(active[name].config);
      active := active - {name};
      os.Close(socket);
      SocketsDrop(old(active), name);
    }

    method StopRemoved(desired: map<string, TunnelConfig>)
      requires SocketsValid()
      modifies this`active, os`held
      ensures SocketsValid()
      ensures active == map name | name in old(active) && Survives(old(active), desired, name) :: old(active)[name]
    {
      StopAll(set name | name in active && !Survives(active, desired, name));
    }

    method StopAll(names: set<string>)
      requires SocketsValid() && names <= active.Keys
      modifies this`active, os`held
      ensures SocketsValid() && active == old(active) - names
    {
      var left := names;
      while left != {}
        invariant SocketsValid() && left <= names <= old(active).Keys
        invariant active == old(active) - (names - left)
        decreases left
      {
        var name :| name in left;
        MinusOneMore(old(active), names - left, name);
        assert names - (left - {name}) == names - left + {name};
        left := left - {name};
        Stop(name);
      }
      assert names - {} == names;
    }

    /** The limiter a listener for `config` draws on: the one already there, if its rate is right. */
    method ChooseLimiter(config: TunnelConfig) returns (limiter: nat)
      modifies this`limiters, this`limitersMade
      ensures config.name in limiters && limiters[config.name] == LimiterEntry(config.limit, limiter)
      ensures limiters == old(limiters)[config.name := limiters[config.name]]
      ensures config.name in old(limiters) && old(limiters)[config.name].limit == config.limit ==> limiters == old(limiters)
    {
      if config.name in limiters && limiters[config.name].limit == config.limit {
        limiter := limiters[config.name].limiter;
      } else {
        limiter := limitersMade;
        limitersMade := limitersMade + 1;
        limiters := limiters[config.name := LimiterEntry(config.limit, limiter)];
      }
    }

    /** Starts the listener of a configuration that is not running. */
    method Start(config: TunnelConfig) returns (ok: bool)
      requires Valid() && config.name !in active
      requires forall name <- active :: SocketOf(active[name].config) != SocketOf(config)
      modifies this`active, this`limiters, this`limitersMade, this`listenersMade, os
      ensures Valid()
      ensures os.attempts == old(os.attempts) + 1
      ensures ok <==> !Unavailable(os, reserved, SocketOf(config), old(os.attempts))
      ensures config.name in limiters && limiters == old(limiters)[config.name := limiters[config.name]]
      ensures config.name in old(limiters) && old(limiters)[config.name].limit == config.limit ==> limiters == old(limiters)
      ensures if ok then config.name in active && active == old(active)[config.name := active[config.name]]
                         && active[config.name].config == config
              else active == old(active)
    {
      var limiter := ChooseLimiter(config);
      LimitersStillAgree(active, old(limiters), limiters, config.name);
      ok := os.Bind(SocketOf(config));
      if ok {
        AddListener(active, Listener(config, limiter, listenersMade, config));
        active := active[config.name := Listener(config, limiter, listenersMade, config)];
        listenersMade := listenersMade + 1;
      }
    }

    /** One turn of the loop below. */
    method StartIfMissing(configs: seq<TunnelConfig>, i: nat, ghost before: map<string, Listener>) returns (ok: bool)
      requires Valid() && ValidConfigs(configs) && Under(active, before, ByName(configs)) && i < |configs|
      modifies this`active, this`limiters, this`limitersMade, this`listenersMade, os
      ensures Valid() && Under(active, before, ByName(configs))
      ensures old(active).Keys <= active.Keys && old(os.attempts) <= os.attempts
      ensures ok ==> configs[i].name in active
      ensures !ok ==> Refused(SocketsOf(configs), os, reserved, old(os.attempts), os.attempts)
      ensures LimitersFollow(old(limiters), limiters, ByName(configs))
    {
      if configs[i].name in active {
        return true;
      }
      ByNameFinds(configs);
      WantedSocketFree(active, before, configs, i);
      ok := Start(configs[i]);
      if !ok {
        assert Unavailable(os, reserved, SocketOf(configs[i]), old(os.attempts));
        assert SocketOf(configs[i]) in SocketsOf(configs);
      }
    }

    /** Starts what is wanted and not running, in the order of the configuration. */
    method StartMissing(configs: seq<TunnelConfig>, ghost before: map<string, Listener>) returns (ok: bool)
      requires Valid() && ValidConfigs(configs) && Under(active, before, ByName(configs))
      modifies this`active, this`limiters, this`limitersMade, this`listenersMade, os
      ensures Valid() && Under(active, before, ByName(configs))
      ensures old(active).Keys <= active.Keys && old(os.attempts) <= os.attempts
      ensures ok ==> active.Keys == ByName(configs).Keys
      ensures !ok ==> Refused(SocketsOf(configs), os, reserved, old(os.attempts), os.attempts)
      ensures LimitersFollow(old(limiters), limiters, ByName(configs))
    {
      for i := 0 to |configs|
        invariant Valid() && Under(active, before, ByName(configs))
        invariant old(active).Keys <= active.Keys && old(os.attempts) <= os.attempts
        invariant forall j | 0 <= j < i :: configs[j].name in active
        invariant LimitersFollow(old(limiters), limiters, ByName(configs))
      {
        ghost var earlier, attempts := limiters, os.attempts;
        var started := StartIfMissing(configs, i, before);
        LimitersFollowOn(old(limiters), earlier, limiters, ByName(configs));
        if !started {
          RefusedWider(SocketsOf(configs), os, reserved, old(os.attempts), attempts, os.attempts);
          return false;
        }
      }
      AllRunning(active, before, configs);
      return true;
    }

    /** Takes over the fields that a running listener does not depend on. */
    method TakeOver(configs: seq<TunnelConfig>, ghost before: map<string, Listener>)
      requires Valid() && ValidConfigs(configs) && Under(active, before, ByName(configs))
      requires active.Keys == ByName(configs).Keys
      modifies this`active
      ensures Valid() && Configs(active) == ByName(configs)
      ensures forall name | Survives(before, ByName(configs), name) ::
                name in active && active[name] == before[name].(config := ByName(configs)[name])
    {
      ghost var started := active;
      ByNameFinds(configs);
      WriteConfigs(configs);
      forall name | name in active ensures active[name] == started[name].(config := ByName(configs)[name]) {
        assert ByName(configs)[name] in configs;
      }
      TakenOver(started, active, before, ByName(configs));
    }

    method WriteConfigs(configs: seq<TunnelConfig>)
      requires NamesUnique(configs) && forall c <- configs :: c.name in active
      modifies this`active
      ensures active.Keys == old(active).Keys
      ensures forall c <- configs :: active[c.name] == old(active)[c.name].(config := c)
    {
      for i := 0 to |configs|
        invariant active.Keys == old(active).Keys
        invariant forall j | 0 <= j < i :: active[configs[j].name] == old(active)[configs[j].name].(config := configs[j])
        invariant forall j | i <= j < |configs| :: active[configs[j].name] == old(active)[configs[j].name]
      {
        active := active[configs[i].name := active[configs[i].name].(config := configs[i])];
      }
    }

    method ApplyOnce(configs: seq<TunnelConfig>) returns (ok: bool)
      requires SocketsValid() && ValidConfigs(configs)
      requires forall name | Survives(active, ByName(configs), name) :: LimiterAgrees(active[name], limiters, name)
      modifies this`active, this`limiters, this`limitersMade, this`listenersMade, os
      ensures Valid() && old(os.attempts) <= os.attempts
      ensures ok ==> Configs(active) == ByName(configs)
      ensures ok ==> limiters.Keys == active.Keys
      ensures ok ==> forall name | Survives(old(active), ByName(configs), name) ::
                active[name] == old(active)[name].(config := ByName(configs)[name])
      ensures ok ==> forall name | name in active && name in old(limiters) && old(limiters)[name].limit == ByName(configs)[name].limit ::
                limiters[name] == old(limiters)[name]
      ensures !ok ==> Under(active, old(active), ByName(configs))
      ensures !ok ==> Refused(SocketsOf(configs), os, reserved, old(os.attempts), os.attempts)
    {
      var desired := ByName(configs);
      StopRemoved(desired);
      ok := StartMissing(configs, old(active));
      if ok {
        TakeOver(configs, old(active));
        RetainLimiters(desired.Keys, old(limiters), desired);
      }
    }

    /** Drops the limiters nobody draws on any more. */
    method RetainLimiters(names: set<string>, ghost before: map<string, LimiterEntry>, ghost desired: map<string, TunnelConfig>)
      requires Valid() && active.Keys == names == desired.Keys && LimitersFollow(before, limiters, desired)
      modifies this`limiters
      ensures Valid() && limiters.Keys == names
      ensures forall name | name in names && name in before && before[name].limit == desired[name].limit ::
                limiters[name] == before[name]
    {
      limiters := Restrict(limiters, names);
    }

    /** The running configurations, in any order. */
    method ListConfigs() returns (list: seq<TunnelConfig>)
      requires SocketsValid()
      ensures ValidConfigs(list) && ByName(list) == Configs(active) && SocketsOf(list) == Sockets(active)
    {
      list := [];
      var left := active.Keys;
      while left != {}
        invariant left <= active.Keys && NamesUnique(list)
        invariant forall c <- list :: c.name in active && c.name !in left && c == active[c.name].config
        invariant forall name <- active | name !in left :: active[name].config in list
        decreases left
      {
        var name :| name in left;
        left := left - {name};
        list := list + [active[name].config];
      }
      ListedExactly(list, active);
    }

    /** All or nothing. On failure the previous listeners come back, unless somebody else took one
        of their sockets while they were down. */
    method Apply(configs: seq<TunnelConfig>) returns (outcome: Outcome)
      requires Valid() && ValidConfigs(configs)
      modifies this`active, this`limiters, this`limitersMade, this`listenersMade, os, runtime
      ensures Valid() && old(os.attempts) <= os.attempts
      ensures outcome == Applied ==>
                && Settled() && Configs(active) == ByName(configs)
                && runtime.View() == TunnelState.ApplyTunnels(old(runtime.View()), configs)
                && forall name | Survives(old(active), ByName(configs), name) ::
                     active[name] == old(active)[name].(config := ByName(configs)[name])
      ensures outcome != Applied ==>
                && runtime.View() == old(runtime.View()) && runtime.revision == old(runtime.revision)
                && Refused(SocketsOf(configs), os, reserved, old(os.attempts), os.attempts)
      ensures outcome == RolledBack ==>
                && Configs(active) == old(Configs(active))
                && limiters == Restrict(old(limiters), old(active).Keys)
                && (old(Settled()) ==> Settled() && limiters == old(limiters))
      ensures outcome == Broken ==> exists n | old(os.attempts) <= n < os.attempts :: os.others(n) * old(Sockets(active)) != {}
    {
      var previous := ListConfigs();
      var previousLimiters := limiters;
      var ok := ApplyOnce(configs);
      if ok {
        runtime.ApplyTunnels(configs);
        return Applied;
      }
      var restored := RollBack(previous, previousLimiters, old(active), ByName(configs));
      return if restored then RolledBack else Broken;
    }

    /** Brings back the listeners of `before` after a change to `desired` failed half way. */
    method RollBack(previous: seq<TunnelConfig>, previousLimiters: map<string, LimiterEntry>,
                    ghost before: map<string, Listener>, ghost desired: map<string, TunnelConfig>) returns (ok: bool)
      requires SocketsValid() && Under(active, before, desired) && Sockets(before) !! reserved
      requires ValidConfigs(previous) && ByName(previous) == Configs(before) && SocketsOf(previous) == Sockets(before)
      requires forall name <- before :: LimiterAgrees(before[name], previousLimiters, name)
      modifies this`active, this`limiters, this`limitersMade, this`listenersMade, os
      ensures Valid() && old(os.attempts) <= os.attempts
      ensures ok ==> Configs(active) == Configs(before) && active.Keys == before.Keys
      ensures ok ==> limiters == Restrict(previousLimiters, before.Keys)
      ensures ok && previousLimiters.Keys == before.Keys ==> limiters == previousLimiters
      ensures !ok ==> exists n | old(os.attempts) <= n < os.attempts :: os.others(n) * Sockets(before) != {}
    {
      limiters := previousLimiters;
      forall name | Survives(active, ByName(previous), name) ensures LimiterAgrees(active[name], limiters, name) {
        OnlyUntouchedSurviveBack(active, before, desired, name);
      }
      ok := ApplyOnce(previous);
      if ok {
        assert active.Keys == Configs(active).Keys == before.Keys;
        LimitersRestored(limiters, previousLimiters, before);
      } else {
        RefusedByOthers(Sockets(before), os, reserved, old(os.attempts), os.attempts);
      }
    }
  }
}
