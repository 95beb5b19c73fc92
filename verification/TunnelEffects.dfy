/**
What each operation on the tunnel runtime's state does to every session, owner and catalog line,
in terms of the configuration and the declarations alone (crates/gaterust-tunnel/src/runtime.rs).
*/
module TunnelEffects {
  import opened Options
  import opened TunnelConfigs
  import opened TunnelState

  // ---- Lists ----

  /** The last declaration of `name` gives it `kind`. */
  predicate Declares(declarations: seq<Declaration>, name: string, kind: Kind) {
    exists i | 0 <= i < |declarations| ::
      declarations[i] == Declaration(name, kind) && forall j | i < j < |declarations| :: declarations[j].name != name
  }

  /** The last entry of `group` gives it `key`. */
  predicate Configures(credentials: seq<(string, string)>, group: string, key: string) {
    exists i | 0 <= i < |credentials| ::
      credentials[i] == (group, key) && forall j | i < j < |credentials| :: credentials[j].0 != group
  }

  lemma {:induction false} ServiceMapExactly(declarations: seq<Declaration>, name: string, kind: Kind)
    ensures Get(ServiceMap(declarations), name) == Some(kind) <==> Declares(declarations, name, kind)
    ensures name in ServiceMap(declarations) <==> exists d <- declarations :: d.name == name
  {
    if declarations != [] {
      var init, last := declarations[..|declarations| - 1], declarations[|declarations| - 1];
      ServiceMapExactly(init, name, kind);
      assert declarations == init + [last];
      if last.name == name {
        assert declarations[|init|] == last;
      } else {
        DeclaresStep(init, last, name, kind);
      }
    }
  }

  lemma DeclaresStep(init: seq<Declaration>, last: Declaration, name: string, kind: Kind)
    requires last.name != name
    ensures Declares(init + [last], name, kind) <==> Declares(init, name, kind)
  {
    var all := init + [last];
    if Declares(init, name, kind) {
      var i :| 0 <= i < |init| && init[i] == Declaration(name, kind) && forall j | i < j < |init| :: init[j].name != name;
      assert all[i] == init[i];
    }
    if Declares(all, name, kind) {
      var i :| 0 <= i < |all| && all[i] == Declaration(name, kind) && forall j | i < j < |all| :: all[j].name != name;
      assert init[i] == all[i];
      assert forall j | i < j < |init| :: init[j] == all[j];
    }
  }

  lemma {:induction false} CredentialMapExactly(credentials: seq<(string, string)>, group: string, key: string)
    ensures Get(CredentialMap(credentials), group) == Some(Sha256(key)) <==> Configures(credentials, group, key)
    ensures group in CredentialMap(credentials) <==> exists entry <- credentials :: entry.0 == group
  {
    if credentials != [] {
      var init, last := credentials[..|credentials| - 1], credentials[|credentials| - 1];
      CredentialMapExactly(init, group, key);
      assert credentials == init + [last];
      if last.0 == group {
        assert credentials[|init|] == last;
      } else {
        ConfiguresStep(init, last, group, key);
      }
    }
  }

  lemma ConfiguresStep(init: seq<(string, string)>, last: (string, string), group: string, key: string)
    requires last.0 != group
    ensures Configures(init + [last], group, key) <==> Configures(init, group, key)
  {
    var all := init + [last];
    if Configures(init, group, key) {
      var i :| 0 <= i < |init| && init[i] == (group, key) && forall j | i < j < |init| :: init[j].0 != group;
      assert all[i] == init[i];
    }
    if Configures(all, group, key) {
      var i :| 0 <= i < |all| && all[i] == (group, key) && forall j | i < j < |all| :: all[j].0 != group;
      assert init[i] == all[i];
      assert forall j | i < j < |init| :: init[j] == all[j];
    }
  }

  // ---- Who may serve a tunnel ----

  /** The tunnel is configured for the group, with the kind the services have for it. */
  predicate MayServe(tunnels: map<string, Spec>, group: string, services: map<string, Kind>, name: string) {
    && name in tunnels && tunnels[name].group == group
    && name in services && services[name] == tunnels[name].kind
  }

  /** Nothing but sessions and owners is touched. */
  predicate SameSettings(s: State, t: State) {
    t.credentials == s.credentials && t.tunnels == s.tunnels
  }

  // ---- Registration and updates ----

  /** Registration succeeds exactly with room, the current key and a device that is not online;
      then the session is there as it declared itself, and owns exactly the tunnels nobody had and
      it may serve. A refusal changes nothing. */
  lemma RegisterExactly(s: State, id: nat, device: string, group: string, digest: Digest, declarations: seq<Declaration>)
    requires Inv(s) && id !in s.sessions
    ensures var t := Register(s, id, device, group, digest, declarations);
            var services := ServiceMap(declarations);
            if |s.sessions| < MAX_ONLINE_CLIENTS && Get(s.credentials, group) == Some(digest)
               && (forall other <- s.sessions :: s.sessions[other].device != device)
            then
              && RegisterOutcome(s, device, group, digest) == Registered
              && t.sessions == s.sessions[id := Session(device, group, digest, services)] && SameSettings(s, t)
              && forall name: string ::
                   if name in s.owners then Get(t.owners, name) == Some(s.owners[name])
                   else if MayServe(s.tunnels, group, services, name) then name in t.owners && t.owners[name].session == id
                   else name !in t.owners
            else RegisterOutcome(s, device, group, digest) != Registered && t == s
  {
  }

  /** Why registration refuses, in this order: no room, another key, device online. */
  lemma RefusalsExactly(s: State, device: string, group: string, digest: Digest)
    ensures var outcome := RegisterOutcome(s, device, group, digest);
            var full, other := |s.sessions| >= 128, Get(s.credentials, group) != Some(digest);
            && (outcome == Capacity <==> full)
            && (outcome == CredentialsChanged <==> !full && other)
            && (outcome == DeviceIdConflict <==> !full && !other && exists id <- s.sessions :: s.sessions[id].device == device)
  {
  }

  /** An update changes the declarations of its session and nothing else about sessions. It gives
      up exactly what the session may not serve any more and takes exactly what nobody has and it
      may serve; others keep theirs. */
  lemma UpdateServicesExactly(s: State, id: nat, declarations: seq<Declaration>)
    requires Inv(s) && id in s.sessions
    ensures var t := UpdateServices(s, id, declarations);
            var services := ServiceMap(declarations);
            && t.sessions == s.sessions[id := s.sessions[id].(services := services)] && SameSettings(s, t)
            && forall name: string ::
                 if name in s.owners && s.owners[name].session != id then Get(t.owners, name) == Some(s.owners[name])
                 else if !MayServe(s.tunnels, s.sessions[id].group, services, name) then name !in t.owners
                 else if name in s.owners then Get(t.owners, name) == Some(s.owners[name])
                 else name in t.owners && t.owners[name].session == id
  {
    var services := ServiceMap(declarations);
    var redeclared := Redeclare(s, id, services);
    var retained := RetainValidOwners(redeclared);
    forall name: string
      ensures var t := UpdateServices(s, id, declarations);
              if name in s.owners && s.owners[name].session != id then Get(t.owners, name) == Some(s.owners[name])
              else if !MayServe(s.tunnels, s.sessions[id].group, services, name) then name !in t.owners
              else if name in s.owners then Get(t.owners, name) == Some(s.owners[name])
              else name in t.owners && t.owners[name].session == id
    {
      assert name in s.owners ==> ValidOwner(s, name, s.owners[name]);
      RetainedExactly(s, id, services, name);
      ClaimedExactly(retained, id, name);
    }
  }

  lemma RetainedExactly(s: State, id: nat, services: map<string, Kind>, name: string)
    requires id in s.sessions && (name in s.owners ==> ValidOwner(s, name, s.owners[name]))
    ensures var retained := RetainValidOwners(Redeclare(s, id, services));
            Get(retained.owners, name) ==
              if name in s.owners && (s.owners[name].session != id || MayServe(s.tunnels, s.sessions[id].group, services, name))
              then Some(s.owners[name]) else None
  {
  }

  lemma ClaimedExactly(s: State, id: nat, name: string)
    requires id in s.sessions
    ensures var t := ClaimAvailable(s, id);
            if name in s.owners then Get(t.owners, name) == Some(s.owners[name])
            else if MayServe(s.tunnels, s.sessions[id].group, s.sessions[id].services, name)
            then name in t.owners && t.owners[name].session == id
            else name !in t.owners
  {
  }

  /** The report of an update: how many services and tunnels the session has now, how many tunnels
      it won and lost, and that nothing is silent but an update without any effect. */
  lemma ReportExactly(s: State, id: nat, declarations: seq<Declaration>)
    requires id in s.sessions
    ensures var t, report := UpdateServices(s, id, declarations), UpdateReport(s, id, declarations);
            && report.Some? && report.value.declared == |ServiceMap(declarations)|
            && report.value.active == |Owned(t, id)|
            && report.value.active + report.value.released == |Owned(s, id)| + report.value.claimed
            && (report.value.claimed == 0 <==> Owned(t, id) <= Owned(s, id))
            && (report.value.released == 0 <==> Owned(s, id) <= Owned(t, id))
            && (report.value.changed <==> ServiceMap(declarations) != s.sessions[id].services || Owned(t, id) != Owned(s, id))
  {
    Balance(Owned(s, id), Owned(UpdateServices(s, id, declarations), id));
  }

  lemma Balance(before: set<string>, after: set<string>)
    ensures |after| + |before - after| == |before| + |after - before|
    ensures |after - before| == 0 <==> after <= before
    ensures |before - after| == 0 <==> before <= after
  {
    assert before == (before - after) + (before * after) && after == (after - before) + (before * after);
    assert after - before == {} <==> after <= before;
    assert before - after == {} <==> before <= after;
  }

  // ---- Reloads ----

  /** A tunnel reload keeps sessions and credentials, replaces the list, and an owner stays exactly
      if its tunnel is still configured for its group with the kind it declared. */
  lemma ApplyTunnelsExactly(s: State, configs: seq<TunnelConfig>, name: string)
    requires Inv(s)
    ensures var t := ApplyTunnels(s, configs);
            && t.sessions == s.sessions && t.credentials == s.credentials && t.tunnels == Specs(ByName(configs))
            && Get(t.owners, name) ==
                 if name in s.owners && s.owners[name].session in s.sessions
                    && MayServe(t.tunnels, s.sessions[s.owners[name].session].group, s.sessions[s.owners[name].session].services, name)
                 then Some(s.owners[name]) else None
  {
  }

  /** A credential reload replaces the credentials; whoever still has the right key stays as it is
      with all its tunnels, everybody else is gone with theirs. */
  lemma ApplyCredentialsExactly(s: State, credentials: map<string, Digest>, id: nat, name: string)
    requires Inv(s)
    ensures var t := ApplyCredentials(s, credentials);
            var keyHolds := id in s.sessions && Get(credentials, s.sessions[id].group) == Some(s.sessions[id].digest);
            && t.credentials == credentials && t.tunnels == s.tunnels
            && Get(t.sessions, id) == (if keyHolds then Some(s.sessions[id]) else None)
            && (name in s.owners && s.owners[name].session == id ==>
                  Get(t.owners, name) == if keyHolds then Some(s.owners[name]) else None)
            && (name !in s.owners ==> name !in t.owners)
  {
    assert name in s.owners ==> ValidOwner(s, name, s.owners[name]);
  }

  // ---- Departures ----

  /** A session that leaves or is disconnected is gone and owns nothing; every other session and
      every tunnel of another session is exactly as before. */
  lemma RemoveSessionExactly(s: State, id: nat, other: nat, name: string)
    ensures var t := RemoveSession(s, id);
            && SameSettings(s, t) && id !in t.sessions
            && (other != id ==> Get(t.sessions, other) == Get(s.sessions, other))
            && Get(t.owners, name) == if name in s.owners && s.owners[name].session != id then Some(s.owners[name]) else None
  {
  }

  /** Then its device may log in again. */
  lemma DeviceFreeAgain(s: State, id: nat)
    requires Inv(s) && id in s.sessions
    ensures RegisterOutcome(RemoveSession(s, id), s.sessions[id].device, s.sessions[id].group, s.sessions[id].digest) == Registered
  {
    OneFewer(s.sessions, id);
    assert RemoveSession(s, id).sessions == s.sessions - {id};
    assert !DeviceOnline(RemoveSession(s, id), s.sessions[id].device);
  }

  lemma OneFewer(sessions: map<nat, Session>, id: nat)
    requires id in sessions
    ensures |sessions - {id}| == |sessions| - 1
  {
    assert (sessions - {id}).Keys == sessions.Keys - {id};
  }

  /** Cutting a tunnel succeeds exactly for the session that owns it; then the session does not
      declare it any more and nobody owns it, and nothing else changes. */
  lemma DisconnectTunnelExactly(s: State, id: nat, tunnel: string)
    requires Inv(s)
    ensures var t, outcome := DisconnectTunnel(s, id, tunnel), DisconnectOutcome(s, id, tunnel);
            && (outcome.Disconnected? <==> tunnel in s.owners && s.owners[tunnel].session == id)
            && (outcome == SessionNotFound <==> id !in s.sessions)
            && (outcome == TunnelNotFound <==> id in s.sessions && tunnel !in s.tunnels)
            && (if outcome.Disconnected? then
                  && id in s.sessions && outcome.shutdown == s.owners[tunnel].shutdown && SameSettings(s, t)
                  && t.owners == s.owners - {tunnel}
                  && t.sessions == s.sessions[id := s.sessions[id].(services := s.sessions[id].services - {tunnel})]
                else t == s)
  {
    assert tunnel in s.owners ==> ValidOwner(s, tunnel, s.owners[tunnel]);
  }

  // ---- What is read ----

  /** A tunnel is found exactly if it has an owner, and then its owner is found. */
  lemma FindExactly(s: State, tunnel: string)
    requires Inv(s)
    ensures Find(s, tunnel) == Get(s.owners, tunnel)
    ensures Find(s, tunnel).Some? ==> Find(s, tunnel).value.session in s.sessions && Find(s, tunnel).value.shutdown.tunnel == tunnel
  {
    assert tunnel in s.owners ==> ValidOwner(s, tunnel, s.owners[tunnel]);
  }

  /** The list of a session shows exactly the tunnels configured for its group, each with its kind,
      port and local address, as idle exactly if nobody owns it, as enabled exactly if the session
      does, and as occupied exactly if another one does. Whoever is not online gets nothing. */
  lemma CatalogExactly(s: State, id: nat, name: string)
    ensures var catalog := CatalogOf(s, id);
            && (name in catalog <==> id in s.sessions && name in s.tunnels && s.tunnels[name].group == s.sessions[id].group)
            && (name in catalog ==>
                  var line, spec := catalog[name], s.tunnels[name];
                  && line.kind == spec.kind && line.serverPort == spec.bind.port
                  && line.localIp == spec.localIp && line.localPort == spec.localPort
                  && (line.availability == Idle <==> name !in s.owners)
                  && (line.availability == Enabled <==> name in s.owners && s.owners[name].session == id)
                  && (line.availability == Occupied <==> name in s.owners && s.owners[name].session != id))
  {
  }

  /** As far as the tunnels of a group go, two states agree. */
  ghost predicate AgreeOn(s: State, t: State, group: string) {
    forall name: string ::
      var inS, inT := name in s.tunnels && s.tunnels[name].group == group, name in t.tunnels && t.tunnels[name].group == group;
      && inS == inT
      && (inS ==> s.tunnels[name] == t.tunnels[name] && Get(s.owners, name) == Get(t.owners, name))
  }

  /** Tunnels and owners of other groups do not show. */
  lemma CatalogShowsOwnGroupOnly(s: State, t: State, id: nat)
    requires id in s.sessions && id in t.sessions && t.sessions[id].group == s.sessions[id].group
    requires AgreeOn(s, t, s.sessions[id].group)
    ensures CatalogOf(s, id) == CatalogOf(t, id)
  {
    var a, b := CatalogOf(s, id), CatalogOf(t, id);
    forall name: string ensures Get(a, name) == Get(b, name) {
      CatalogExactly(s, id, name);
      CatalogExactly(t, id, name);
    }
    assert forall name :: name in a <==> name in b by {
      forall name ensures name in a <==> name in b {
        assert Get(a, name) == Get(b, name);
      }
    }
    forall name | name in a ensures a[name] == b[name] {
      assert Get(a, name) == Get(b, name);
    }
  }

  /** In terms of the configuration: the line of a configured tunnel. SOCKS5 tunnels have no local
      address; for others the local port defaults to the public one. */
  lemma LineOfConfig(s: State, configs: seq<TunnelConfig>, id: nat, c: TunnelConfig)
    requires s.tunnels == Specs(ByName(configs)) && NamesUnique(configs) && c in configs
    requires id in s.sessions && s.sessions[id].group == c.group
    ensures c.name in CatalogOf(s, id)
    ensures var line := CatalogOf(s, id)[c.name];
            && line.kind == c.kind && line.serverPort == c.bind.port
            && (c.kind == Socks5 ==> line.localIp == None && line.localPort == None)
            && (c.kind != Socks5 ==>
                  && line.localIp == Some(c.localIp)
                  && line.localPort.Some? && (c.localPort.Some? ==> line.localPort == c.localPort)
                  && (c.localPort.None? ==> line.localPort == Some(c.bind.port)))
  {
    ByNameFinds(configs);
  }
}
