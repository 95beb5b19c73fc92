/**
The tunnel runtime as the source runs it: one object whose operations update its maps in
place and then announce the change (crates/gaterust-tunnel/src/runtime.rs). Each operation is
proved against the value it computes in `TunnelState`.
*/
module TunnelRuntimes {
  import opened Options
  import opened TunnelConfigs
  import S = TunnelState

  /** The operations that change the state behind the lock. */
  datatype Operation =
    | Registering(id: nat, device: string, group: string, digest: S.Digest, declarations: seq<S.Declaration>)
    | Updating(id: nat, declarations: seq<S.Declaration>)
    | ApplyingTunnels(configs: seq<TunnelConfig>)
    | ApplyingCredentials(list: seq<(string, string)>)
    | Unregistering(id: nat)
    | Disconnecting(id: nat)
    | DisconnectingTunnel(id: nat, tunnel: string)

  function Apply(s: S.State, op: Operation): S.State {
    match op
    case Registering(id, device, group, digest, declarations) => S.Register(s, id, device, group, digest, declarations)
    case Updating(id, declarations) => S.UpdateServices(s, id, declarations)
    case ApplyingTunnels(configs) => S.ApplyTunnels(s, configs)
    case ApplyingCredentials(list) => S.ApplyCredentials(s, S.CredentialMap(list))
    case Unregistering(id) => Without(s, id)
    case Disconnecting(id) => Without(s, id)
    case DisconnectingTunnel(id, tunnel) => S.DisconnectTunnel(s, id, tunnel)
  }

  function Without(s: S.State, id: nat): S.State {
    if id in s.sessions then S.RemoveSession(s, id) else s
  }

  /** Session ids are never used twice. */
  predicate Fresh(s: S.State, op: Operation) {
    op.Registering? ==> op.id !in s.sessions
  }

  /** No operation breaks the ownership invariant, moves a tunnel between owners or reuses a token. */
  lemma OperationKeeps(s: S.State, op: Operation)
    requires S.Inv(s) && Fresh(s, op)
    ensures S.Follows(s, Apply(s, op))
  {
    match op
    case Registering(id, device, group, digest, declarations) => S.RegisterKeeps(s, id, device, group, digest, declarations);
    case Updating(id, declarations) => S.UpdateServicesKeeps(s, id, declarations);
    case ApplyingTunnels(configs) => S.ApplyTunnelsKeeps(s, configs);
    case ApplyingCredentials(list) => S.ApplyCredentialsKeeps(s, S.CredentialMap(list));
    case Unregistering(id) => S.RemoveSessionKeeps(s, id);
    case Disconnecting(id) => S.RemoveSessionKeeps(s, id);
    case DisconnectingTunnel(id, tunnel) => S.DisconnectTunnelKeeps(s, id, tunnel);
  }

  datatype CloseCode = AdministratorDisconnect | CredentialsRevoked

  class TunnelRuntime {
    var credentials: map<string, S.Digest>
    var sessions: map<nat, S.Session>
    var tunnels: map<string, Spec>
    var owners: map<string, S.Owner>
    var serial: nat
    var cancelled: set<S.Token>
    /** The connections the runtime has closed, and why. */
    var closed: map<nat, CloseCode>
    var revision: nat

    function View(): S.State
      reads this
    {
      S.State(credentials, sessions, tunnels, owners, serial)
    }

    constructor ()
      ensures S.Inv(View()) && View() == S.State(map[], map[], map[], map[], 0)
      ensures cancelled == {} && closed == map[] && revision == 0
    {
      credentials, sessions, tunnels, owners := map[], map[], map[], map[];
      serial, cancelled, closed, revision := 0, {}, map[], 0;
    }

    method Notify()
      modifies this`revision
      ensures revision == old(revision) + 1
    {
      revision := revision + 1;
    }

    method RetainValidOwners()
      modifies this`owners
      ensures View() == S.RetainValidOwners(old(View()))
    {
      owners := map name | name in owners &&
          name in tunnels && owners[name].session in sessions &&
          S.Eligible(sessions[owners[name].session], name, tunnels[name]) :: owners[name];
    }

    method ReleaseSession(id: nat)
      modifies this`owners
      ensures View() == S.ReleaseSession(old(View()), id)
    {
      owners := map name | name in owners && owners[name].session != id :: owners[name];
    }

    method ClaimAvailable(id: nat)
      modifies this`owners, this`serial
      ensures View() == S.ClaimAvailable(old(View()), id)
    {
      if id !in sessions {
        return;
      }
      var available := S.Available(View(), id);
      var left := available;
      while left != {}
        invariant left <= available
        invariant owners == old(owners) + map name | name in available - left :: S.Owner(id, S.Token(old(serial), name))
        invariant serial == old(serial)
        decreases left
      {
        var name :| name in left;
        left := left - {name};
        owners := owners[name := S.Owner(id, S.Token(serial, name))];
      }
      assert available - left == available;
      serial := serial + 1;
    }

    // ---- Under the lock ----

    method AddSession(id: nat, device: string, group: string, digest: S.Digest, declarations: seq<S.Declaration>)
      returns (result: S.RegisterResult)
      modifies this`sessions, this`owners, this`serial
      ensures View() == S.Register(old(View()), id, device, group, digest, declarations)
      ensures result == S.RegisterOutcome(old(View()), device, group, digest)
    {
      if |sessions| >= S.MAX_ONLINE_CLIENTS {
        return S.Capacity;
      }
      if Get(credentials, group) != Some(digest) {
        return S.CredentialsChanged;
      }
      if exists other <- sessions :: sessions[other].device == device {
        return S.DeviceIdConflict;
      }
      var services := ServiceMap(declarations);
      sessions := sessions[id := S.Session(device, group, digest, services)];
      ClaimAvailable(id);
      return S.Registered;
    }

    method ServiceMap(declarations: seq<S.Declaration>) returns (services: map<string, Kind>)
      ensures services == S.ServiceMap(declarations)
    {
      services := map[];
      for i := 0 to |declarations|
        invariant services == S.ServiceMap(declarations[..i])
      {
        services := services[declarations[i].name := declarations[i].kind];
        assert declarations[..i + 1][..i] == declarations[..i];
      }
      assert declarations[..|declarations|] == declarations;
    }

    method ReplaceServices(id: nat, declarations: seq<S.Declaration>) returns (update: Option<S.ServiceUpdate>)
      modifies this`sessions, this`owners, this`serial
      ensures View() == S.UpdateServices(old(View()), id, declarations)
      ensures update == S.UpdateReport(old(View()), id, declarations)
    {
      if id !in sessions {
        return None;
      }
      var previouslyOwned := S.Owned(View(), id);
      var services := ServiceMap(declarations);
      var declarationsChanged := sessions[id].services != services;
      Reassign(id, services);
      update := Some(S.Report(services, declarationsChanged, previouslyOwned, S.Owned(View(), id)));
    }

    method Reassign(id: nat, services: map<string, Kind>)
      requires id in sessions
      modifies this`sessions, this`owners, this`serial
      ensures View() == S.ClaimAvailable(S.RetainValidOwners(S.Redeclare(old(View()), id, services)), id)
    {
      Redeclare(id, services);
      RetainValidOwners();
      ClaimAvailable(id);
    }

    method Redeclare(id: nat, services: map<string, Kind>)
      requires id in sessions
      modifies this`sessions
      ensures View() == S.Redeclare(old(View()), id, services)
    {
      sessions := sessions[id := sessions[id].(services := services)];
    }

    method ReplaceTunnels(configs: seq<TunnelConfig>)
      modifies this`tunnels, this`owners
      ensures View() == S.ApplyTunnels(old(View()), configs)
    {
      var specs: map<string, Spec> := map[];
      for i := 0 to |configs|
        invariant specs == Specs(ByName(configs[..i]))
      {
        specs := specs[configs[i].name := SpecOf(configs[i])];
        assert configs[..i + 1][..i] == configs[..i];
      }
      assert configs[..|configs|] == configs;
      tunnels := specs;
      RetainValidOwners();
    }

    method ReplaceCredentials(list: seq<(string, string)>) returns (revoked: set<nat>)
      modifies this`credentials, this`sessions, this`owners
      ensures View() == S.ApplyCredentials(old(View()), S.CredentialMap(list))
      ensures revoked == S.Revoked(old(View()), S.CredentialMap(list))
    {
      var digests: map<string, S.Digest> := map[];
      for i := 0 to |list|
        invariant digests == S.CredentialMap(list[..i])
      {
        digests := digests[list[i].0 := S.Sha256(list[i].1)];
        assert list[..i + 1][..i] == list[..i];
      }
      assert list[..|list|] == list;
      credentials := digests;
      revoked := S.Revoked(View(), credentials);
      Revoke(revoked);
    }

    method Revoke(revoked: set<nat>)
      modifies this`sessions, this`owners
      ensures sessions == old(sessions) - revoked
      ensures owners == map name | name in old(owners) && old(owners)[name].session !in revoked :: old(owners)[name]
    {
      var left := revoked;
      while left != {}
        invariant left <= revoked
        invariant sessions == old(sessions) - (revoked - left)
        invariant owners == map name | name in old(owners) && old(owners)[name].session !in revoked - left :: old(owners)[name]
        decreases left
      {
        var id :| id in left;
        left := left - {id};
        sessions := sessions - {id};
        ReleaseSession(id);
        assert sessions == old(sessions) - (revoked - left);
      }
      assert revoked - left == revoked;
    }

    method RemoveSession(id: nat) returns (found: bool)
      modifies this`sessions, this`owners
      ensures found == (id in old(sessions))
      ensures View() == if found then S.RemoveSession(old(View()), id) else old(View())
    {
      if id !in sessions {
        return false;
      }
      sessions := sessions - {id};
      ReleaseSession(id);
      return true;
    }

    method ReleaseTunnel(id: nat, tunnel: string) returns (result: S.TunnelDisconnect)
      modifies this`sessions, this`owners
      ensures View() == S.DisconnectTunnel(old(View()), id, tunnel)
      ensures result == S.DisconnectOutcome(old(View()), id, tunnel)
    {
      if id !in sessions {
        return S.SessionNotFound;
      }
      if tunnel !in tunnels {
        return S.TunnelNotFound;
      }
      if tunnel !in owners || owners[tunnel].session != id {
        return S.NotOwnedBySession;
      }
      Redeclare(id, sessions[id].services - {tunnel});
      var shutdown := owners[tunnel].shutdown;
      owners := owners - {tunnel};
      return S.Disconnected(shutdown);
    }

    // ---- The operations ----

    method Register(id: nat, device: string, group: string, digest: S.Digest, declarations: seq<S.Declaration>)
      returns (result: S.RegisterResult)
      modifies this
      ensures View() == S.Register(old(View()), id, device, group, digest, declarations)
      ensures result == S.RegisterOutcome(old(View()), device, group, digest)
      ensures cancelled == old(cancelled) && closed == old(closed)
      ensures revision == old(revision) + if result == S.Registered then 1 else 0
    {
      result := AddSession(id, device, group, digest, declarations);
      if result == S.Registered {
        Notify();
      }
    }

    method UpdateServices(id: nat, declarations: seq<S.Declaration>) returns (update: Option<S.ServiceUpdate>)
      modifies this
      ensures View() == S.UpdateServices(old(View()), id, declarations)
      ensures update == S.UpdateReport(old(View()), id, declarations)
      ensures cancelled == old(cancelled) && closed == old(closed)
      ensures revision == old(revision) + if update.Some? && update.value.changed then 1 else 0
    {
      update := ReplaceServices(id, declarations);
      if update.Some? && update.value.changed {
        Notify();
      }
    }

    method ApplyTunnels(configs: seq<TunnelConfig>)
      modifies this
      ensures View() == S.ApplyTunnels(old(View()), configs)
      ensures cancelled == old(cancelled) && closed == old(closed) && revision == old(revision) + 1
    {
      ReplaceTunnels(configs);
      Notify();
    }

    method ApplyCredentials(list: seq<(string, string)>) returns (revoked: set<nat>)
      modifies this
      ensures View() == S.ApplyCredentials(old(View()), S.CredentialMap(list))
      ensures revoked == S.Revoked(old(View()), S.CredentialMap(list))
      ensures cancelled == old(cancelled) && closed == old(closed) + map id | id in revoked :: CredentialsRevoked
      ensures revision == old(revision) + if revoked == {} then 0 else 1
    {
      revoked := ReplaceCredentials(list);
      if revoked != {} {
        Notify();
      }
      closed := closed + map id | id in revoked :: CredentialsRevoked;
    }

    method Unregister(id: nat) returns (found: bool)
      modifies this
      ensures found == (id in old(sessions))
      ensures View() == if found then S.RemoveSession(old(View()), id) else old(View())
      ensures cancelled == old(cancelled) && closed == old(closed)
      ensures revision == old(revision) + if found then 1 else 0
    {
      found := RemoveSession(id);
      if found {
        Notify();
      }
    }

    method Disconnect(id: nat) returns (found: bool)
      modifies this
      ensures found == (id in old(sessions))
      ensures View() == if found then S.RemoveSession(old(View()), id) else old(View())
      ensures cancelled == old(cancelled)
      ensures closed == if found then old(closed)[id := AdministratorDisconnect] else old(closed)
      ensures revision == old(revision) + if found then 1 else 0
    {
      found := RemoveSession(id);
      if found {
        Notify();
        closed := closed[id := AdministratorDisconnect];
      }
    }

    method DisconnectTunnel(id: nat, tunnel: string) returns (result: S.TunnelDisconnect)
      modifies this
      ensures closed == old(closed)
      ensures View() == S.DisconnectTunnel(old(View()), id, tunnel)
      ensures result == S.DisconnectOutcome(old(View()), id, tunnel)
      ensures cancelled == old(cancelled) + if result.Disconnected? then {result.shutdown} else {}
      ensures revision == old(revision) + if result.Disconnected? then 1 else 0
    {
      result := ReleaseTunnel(id, tunnel);
      if result.Disconnected? {
        cancelled := cancelled + {result.shutdown};
        Notify();
      }
    }

    /** The lock admits one operation at a time, and each of them keeps the invariant. */
    method Perform(op: Operation)
      requires S.Inv(View()) && Fresh(View(), op)
      modifies this
      ensures View() == Apply(old(View()), op) && S.Follows(old(View()), View())
    {
      OperationKeeps(View(), op);
      match op {
        case Registering(id, device, group, digest, declarations) =>
          var _ := Register(id, device, group, digest, declarations);
        case Updating(id, declarations) =>
          var _ := UpdateServices(id, declarations);
        case ApplyingTunnels(configs) =>
          ApplyTunnels(configs);
        case ApplyingCredentials(list) =>
          var _ := ApplyCredentials(list);
        case Unregistering(id) =>
          var _ := Unregister(id);
        case Disconnecting(id) =>
          var _ := Disconnect(id);
        case DisconnectingTunnel(id, tunnel) =>
          var _ := DisconnectTunnel(id, tunnel);
      }
    }
  }
}
