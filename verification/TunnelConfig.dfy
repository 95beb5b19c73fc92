/** Tunnel entries of the server configuration (crates/gaterust-tunnel/src/config.rs). */
module TunnelConfigs {
  import opened Options

  datatype Kind = Tcp | Udp | Socks5

  datatype Address = Address(ip: string, port: nat)

  datatype TunnelConfig = TunnelConfig(
    name: string,
    group: string,
    kind: Kind,
    bind: Address,
    localIp: string,
    localPort: Option<nat>,
    limit: Option<nat>,
    maxConnections: nat,
    maxUdpSessions: nat,
    udpIdleSeconds: nat)

  /** What the runtime keeps of a configured tunnel. */
  datatype Spec = Spec(group: string, kind: Kind, bind: Address, localIp: Option<string>, localPort: Option<nat>)

  function SpecOf(c: TunnelConfig): Spec {
    Spec(c.group, c.kind, c.bind,
         if c.kind == Socks5 then None else Some(c.localIp),
         if c.kind == Socks5 then None else if c.localPort.Some? then c.localPort else Some(c.bind.port))
  }

  /** The configurations by name; a later entry replaces an earlier one. */
  function ByName(configs: seq<TunnelConfig>): map<string, TunnelConfig> {
    if configs == [] then map[]
    else
      var last := configs[|configs| - 1];
      ByName(configs[..|configs| - 1])[last.name := last]
  }

  function Specs(configs: map<string, TunnelConfig>): map<string, Spec> {
    map name <- configs :: SpecOf(configs[name])
  }

  predicate NamesUnique(configs: seq<TunnelConfig>) {
    forall i, j | 0 <= i < j < |configs| :: configs[i].name != configs[j].name
  }

  /** Sockets are claimed per transport: UDP tunnels and stream tunnels do not collide. */
  datatype Socket = Socket(udp: bool, bind: Address)

  function SocketOf(c: TunnelConfig): Socket {
    Socket(c.kind == Udp, c.bind)
  }

  predicate SocketsUnique(configs: seq<TunnelConfig>) {
    forall i, j | 0 <= i < j < |configs| :: SocketOf(configs[i]) != SocketOf(configs[j])
  }

  /** Every entry of a list without repeated names is found under its name, and only those. */
  lemma {:induction false} ByNameFinds(configs: seq<TunnelConfig>)
    ensures forall name <- ByName(configs) :: ByName(configs)[name] in configs && ByName(configs)[name].name == name
    ensures forall c <- configs :: c.name in ByName(configs)
    ensures NamesUnique(configs) ==> forall c <- configs :: ByName(configs)[c.name] == c
  {
    if configs != [] {
      ByNameFinds(configs[..|configs| - 1]);
    }
  }
}
