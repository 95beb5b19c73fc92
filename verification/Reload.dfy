/**
Reloading the whole server configuration: `reload_server` of
crates/gaterust-tunnel/src/server/mod.rs with `QuicEndpoint::prepare` and `apply` of
crates/gaterust-tunnel/src/server/endpoint.rs.
*/
module Reload {
  import opened Options
  import opened TunnelConfigs
  import opened TunnelRuntimes
  import opened Listeners
  import S = TunnelState

  datatype QuicConfig = QuicConfig(bind: Address, certificate: string, privateKey: string)

  datatype ServerConfig = ServerConfig(quic: QuicConfig, groups: seq<(string, string)>, tunnels: seq<TunnelConfig>)

  /** `restored`: the tunnel listeners are back as they were. */
  datatype Result =
    | Reloaded
    | LoadFailed
    | PrepareFailed
    | ListenersFailed(restored: bool)
    | QuicFailed(restored: bool)
  {
    predicate Restored() {
      LoadFailed? || PrepareFailed? || ((ListenersFailed? || QuicFailed?) && restored)
    }
  }

  function QuicSocket(quic: QuicConfig): Socket {
    Socket(true, quic.bind)
  }

  /** The states differ at most in owners that are gone. */
  predicate OnlyOwnersLost(before: S.State, after: S.State) {
    after == before.(owners := after.owners) && after.owners.Keys <= before.owners.Keys && S.NothingStolen(before, after)
  }

  /** Nobody holds the socket at the next attempt. */
  ghost predicate Free(os: OperatingSystem, socket: Socket)
    reads os
  {
    socket !in os.held && socket !in os.others(os.attempts)
  }

  /** Somebody else held one of these sockets at one of the attempts. */
  ghost predicate TakenByOthers(os: OperatingSystem, sockets: set<Socket>, from: nat, to: nat) {
    exists n | from <= n < to :: os.others(n) * sockets != {}
  }

  lemma TakenLonger(os: OperatingSystem, sockets: set<Socket>, earlier: nat, from: nat, to: nat)
    requires TakenByOthers(os, sockets, from, to) && earlier <= from
    ensures TakenByOthers(os, sockets, earlier, to)
  {
  }

  lemma SameConfigsSameSockets(a: map<string, Listener>, b: map<string, Listener>)
    ensures Configs(a) == Configs(b) ==> Sockets(a) == Sockets(b)
  {
    if Configs(a) == Configs(b) {
      assert a.Keys == Configs(a).Keys == b.Keys;
      assert forall name <- a :: a[name].config == Configs(a)[name] == b[name].config;
      assert Sockets(a) == Sockets(b);
    }
  }

  class Server {
    const listeners: ListenerManager
    var quic: QuicConfig
    var groups: seq<(string, string)>

    constructor (listeners: ListenerManager, quic: QuicConfig, groups: seq<(string, string)>)
      requires listeners.Valid() && listeners.reserved == {QuicSocket(quic)}
      ensures Valid() && this.listeners == listeners && this.quic == quic && this.groups == groups
    {
      this.listeners, this.quic, this.groups := listeners, quic, groups;
    }

    ghost predicate Valid()
      reads this, listeners, listeners.os, listeners.runtime
    {
      && listeners.Valid()
      && listeners.reserved == {QuicSocket(quic)}
    }

    /** Everything a client or an administrator can see is as it was, except that owners may be gone. */
    twostate predicate Invisible()
      reads this, listeners, listeners.os, listeners.runtime
    {
      && Valid() && listeners.Settled()
      && quic == old(quic) && groups == old(groups)
      && Configs(listeners.active) == old(Configs(listeners.active))
      && listeners.os.held == old(listeners.os.held)
      && OnlyOwnersLost(old(listeners.runtime.View()), listeners.runtime.View())
    }

    /** The new endpoint can be prepared: it is the current one, or its TLS files can be read and its
        socket is the current one or free now. */
    ghost predicate CanPrepare(updated: QuicConfig, credentialsLoad: bool)
      reads this, listeners, listeners.os
    {
      || updated == quic
      || (credentialsLoad && (updated.bind == quic.bind || Free(listeners.os, QuicSocket(updated))))
    }

    /**
    `loaded`: the file as read and validated, if it was. `credentialsLoad` and `rebindWorks`:
    whether the TLS files can be read and whether Quinn takes the new socket.
    */
    method ReloadServer(loaded: Option<ServerConfig>, credentialsLoad: bool, rebindWorks: bool) returns (result: Result)
      requires Valid()
      requires loaded.Some? ==> ValidConfigs(loaded.value.tunnels)
      modifies this, listeners, listeners.os, listeners.runtime
      ensures result == Reloaded ==>
                && listeners.Settled() && loaded.Some? && quic == loaded.value.quic && groups == loaded.value.groups
                && Configs(listeners.active) == ByName(loaded.value.tunnels)
                && listeners.runtime.View() ==
                     S.ApplyCredentials(S.ApplyTunnels(old(listeners.runtime.View()), loaded.value.tunnels),
                                        S.CredentialMap(loaded.value.groups))
      ensures Valid()
      ensures old(listeners.Settled()) && result.Restored() ==> Invisible()
      ensures result != Reloaded && !result.Restored() ==>
                && quic == old(quic) && groups == old(groups)
                && listeners.runtime.credentials == old(listeners.runtime.credentials)
                && listeners.runtime.sessions == old(listeners.runtime.sessions)
      ensures result == LoadFailed <==> loaded.None?
      ensures result == PrepareFailed <==> loaded.Some? && !old(CanPrepare(loaded.value.quic, credentialsLoad))
      ensures result.QuicFailed? ==> loaded.value.quic.bind != old(quic.bind) && !rebindWorks
      ensures result == Reloaded ==> loaded.value.quic.bind == old(quic.bind) || rebindWorks
      ensures result.ListenersFailed? ==>
                Refused(SocketsOf(loaded.value.tunnels), listeners.os, {QuicSocket(old(quic)), QuicSocket(loaded.value.quic)},
                        old(listeners.os.attempts), listeners.os.attempts)
      ensures result != Reloaded && !result.Restored() ==>
                TakenByOthers(listeners.os, old(Sockets(listeners.active)), old(listeners.os.attempts), listeners.os.attempts)
    {
      if loaded.None? {
        return LoadFailed;
      }
      var prepared := Prepare(loaded.value.quic, credentialsLoad);
      if !prepared {
        return PrepareFailed;
      }
      ghost var attempts := listeners.os.attempts;
      result := Switch(loaded.value, rebindWorks);
      SameConfigsSameSockets(listeners.active, old(listeners.active));
      if result.ListenersFailed? {
        RefusedWider(SocketsOf(loaded.value.tunnels), listeners.os, {QuicSocket(old(quic)), QuicSocket(loaded.value.quic)},
                     old(listeners.os.attempts), attempts, listeners.os.attempts);
      }
      if result != Reloaded && !result.Restored() {
        TakenLonger(listeners.os, old(Sockets(listeners.active)), old(listeners.os.attempts), attempts, listeners.os.attempts);
      }
    }

    /** The new endpoint's socket is open beside the current one. */
    ghost predicate Prepared(updated: QuicConfig)
      reads this, listeners, listeners.os, listeners.runtime
    {
      && listeners.Valid()
      && listeners.reserved == {QuicSocket(quic), QuicSocket(updated)}
    }

    method Prepare(updated: QuicConfig, credentialsLoad: bool) returns (ok: bool)
      requires Valid()
      modifies listeners`reserved, listeners.os
      ensures ok <==> old(CanPrepare(updated, credentialsLoad))
      ensures if ok then Prepared(updated) else Valid() && listeners.os.held == old(listeners.os.held)
      ensures listeners.os.attempts >= old(listeners.os.attempts)
      ensures old(listeners.Settled()) ==> listeners.Settled()
    {
      if updated == quic {
        return true;
      }
      if !credentialsLoad {
        return false;
      }
      if updated.bind == quic.bind {
        return true;
      }
      ok := Reserve(QuicSocket(updated));
    }

    method Switch(config: ServerConfig, rebindWorks: bool) returns (result: Result)
      requires Prepared(config.quic) && ValidConfigs(config.tunnels)
      modifies this, listeners, listeners.os, listeners.runtime
      ensures !result.LoadFailed? && !result.PrepareFailed?
      ensures Valid() && listeners.os.attempts >= old(listeners.os.attempts)
      ensures result.QuicFailed? ==> config.quic.bind != old(quic.bind) && !rebindWorks
      ensures result == Reloaded ==> config.quic.bind == old(quic.bind) || rebindWorks
      ensures result.ListenersFailed? ==>
                Refused(SocketsOf(config.tunnels), listeners.os, {QuicSocket(old(quic)), QuicSocket(config.quic)},
                        old(listeners.os.attempts), listeners.os.attempts)
      ensures result != Reloaded && !result.restored ==>
                TakenByOthers(listeners.os, old(Sockets(listeners.active)), old(listeners.os.attempts), listeners.os.attempts)
      ensures result == Reloaded ==>
                && listeners.Settled() && quic == config.quic && groups == config.groups
                && Configs(listeners.active) == ByName(config.tunnels)
                && listeners.runtime.View() ==
                     S.ApplyCredentials(S.ApplyTunnels(old(listeners.runtime.View()), config.tunnels), S.CredentialMap(config.groups))
      ensures result != Reloaded ==>
                && quic == old(quic) && groups == old(groups)
                && listeners.runtime.credentials == old(listeners.runtime.credentials)
                && listeners.runtime.sessions == old(listeners.runtime.sessions)
      ensures old(listeners.Settled()) && result != Reloaded && result.restored ==>
                && listeners.Settled()
                && Configs(listeners.active) == old(Configs(listeners.active))
                && OnlyOwnersLost(old(listeners.runtime.View()), listeners.runtime.View())
    {
      var previous := listeners.ListConfigs();
      var outcome := listeners.Apply(config.tunnels);
      ghost var attempts := listeners.os.attempts;
      if outcome != Applied {
        Abandon(config.quic);
        return ListenersFailed(outcome == RolledBack);
      }
      if config.quic.bind != quic.bind && !rebindWorks {
        var back := TakeBack(config, previous, old(listeners.runtime.View()));
        if !back {
          TakenLonger(listeners.os, SocketsOf(previous), old(listeners.os.attempts), attempts, listeners.os.attempts);
        }
        return QuicFailed(back);
      }
      Install(config);
      return Reloaded;
    }

    /** Drops the prepared endpoint and brings the previous listeners back. */
    method TakeBack(config: ServerConfig, previous: seq<TunnelConfig>, ghost before: S.State) returns (ok: bool)
      requires Prepared(config.quic) && ValidConfigs(previous) && QuicSocket(quic) !in SocketsOf(previous)
      requires listeners.runtime.View() == S.ApplyTunnels(before, config.tunnels)
      modifies listeners, listeners.os, listeners.runtime
      ensures Valid()
      ensures listeners.runtime.credentials == before.credentials && listeners.runtime.sessions == before.sessions
      ensures ok ==> listeners.Settled() && Configs(listeners.active) == ByName(previous)
      ensures ok && before.tunnels == Specs(ByName(previous)) ==> OnlyOwnersLost(before, listeners.runtime.View())
      ensures listeners.os.attempts >= old(listeners.os.attempts)
      ensures !ok ==> TakenByOthers(listeners.os, SocketsOf(previous), old(listeners.os.attempts), listeners.os.attempts)
    {
      Abandon(config.quic);
      var outcome := listeners.Apply(previous);
      ok := outcome == Applied;
      if !ok {
        RefusedByOthers(SocketsOf(previous), listeners.os, listeners.reserved, old(listeners.os.attempts), listeners.os.attempts);
      }
      if before.tunnels == Specs(ByName(previous)) {
        S.ApplyTunnelsTwice(before, config.tunnels, previous);
      }
    }

    /** Drops a prepared endpoint. */
    method Abandon(updated: QuicConfig)
      requires listeners.Valid() && listeners.reserved == {QuicSocket(quic), QuicSocket(updated)}
      modifies listeners`reserved, listeners.os`held
      ensures listeners.Valid() && listeners.reserved == {QuicSocket(quic)}
      ensures old(listeners.Settled()) ==> listeners.Settled()
    {
      if updated.bind != quic.bind {
        Release(QuicSocket(updated));
      }
    }

    /** Switches to the prepared endpoint, then to the new credentials. */
    method Install(config: ServerConfig)
      requires Prepared(config.quic)
      modifies this, listeners`reserved, listeners.os`held, listeners.runtime
      ensures Valid() && quic == config.quic && groups == config.groups
      ensures old(listeners.Settled()) ==> listeners.Settled()
      ensures listeners.runtime.View() == S.ApplyCredentials(old(listeners.runtime.View()), S.CredentialMap(config.groups))
    {
      if config.quic.bind != quic.bind {
        Release(QuicSocket(quic));
      }
      quic := config.quic;
      var _ := listeners.runtime.ApplyCredentials(config.groups);
      groups := config.groups;
    }

    method Reserve(socket: Socket) returns (ok: bool)
      requires listeners.Valid()
      modifies listeners`reserved, listeners.os
      ensures listeners.Valid()
      ensures ok <==> old(Free(listeners.os, socket))
      ensures listeners.os.attempts == old(listeners.os.attempts) + 1
      ensures ok ==> listeners.reserved == old(listeners.reserved) + {socket}
      ensures !ok ==> listeners.reserved == old(listeners.reserved)
      ensures listeners.os.held == old(listeners.os.held) + if ok then {socket} else {}
    {
      ok := listeners.os.Bind(socket);
      if ok {
        listeners.reserved := listeners.reserved + {socket};
      }
    }

    method Release(socket: Socket)
      requires listeners.Valid() && socket in listeners.reserved
      modifies listeners`reserved, listeners.os`held
      ensures listeners.Valid()
      ensures listeners.reserved == old(listeners.reserved) - {socket}
      ensures listeners.os.held == old(listeners.os.held) - {socket}
    {
      listeners.os.Close(socket);
      listeners.reserved := listeners.reserved - {socket};
    }
  }
}
