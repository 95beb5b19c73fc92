/**
The state behind the tunnel runtime's lock and the operations on it
(crates/gaterust-tunnel/src/runtime.rs), as values. `TunnelRuntime` runs these operations in
place; `TunnelProtocol` interleaves them.
*/
module TunnelState {
  import opened Options
  import opened TunnelConfigs

  const MAX_ONLINE_CLIENTS: nat := 128

  /** SHA-256 of a group key, known only as an injective function. */
  datatype Digest = Sha256(secret: string)

  datatype Declaration = Declaration(name: string, kind: Kind)

  datatype Session = Session(device: string, group: string, digest: Digest, services: map<string, Kind>)

  /** The identity of a cancellation token. Each run of `claim_available` is numbered and makes at
      most one token per tunnel. */
  datatype Token = Token(serial: nat, tunnel: string)

  datatype Owner = Owner(session: nat, shutdown: Token)

  datatype State = State(
    credentials: map<string, Digest>,
    sessions: map<nat, Session>,
    tunnels: map<string, Spec>,
    owners: map<string, Owner>,
    serial: nat)

  datatype RegisterResult = Registered | Capacity | CredentialsChanged | DeviceIdConflict

  datatype ServiceUpdate = ServiceUpdate(declared: nat, active: nat, claimed: nat, released: nat, changed: bool)

  datatype TunnelDisconnect = Disconnected(shutdown: Token) | SessionNotFound | TunnelNotFound | NotOwnedBySession

  datatype Availability = Idle | Enabled | Occupied

  /** One line of the list a client is shown. */
  datatype ClientTunnel = ClientTunnel(
    kind: Kind, serverPort: nat, localIp: Option<string>, localPort: Option<nat>, availability: Availability)

  /** The list a client is shown, by tunnel name. The source sorts it by that name. */
  type Catalog = map<string, ClientTunnel>

  // ---- Operations ----

  function ServiceMap(declarations: seq<Declaration>): map<string, Kind> {
    if declarations == [] then map[]
    else
      var last := declarations[|declarations| - 1];
      ServiceMap(declarations[..|declarations| - 1])[last.name := last.kind]
  }

  /** The digests of a credential list; a later entry replaces an earlier one. */
  function CredentialMap(credentials: seq<(string, string)>): map<string, Digest> {
    if credentials == [] then map[]
    else
      var last := credentials[|credentials| - 1];
      CredentialMap(credentials[..|credentials| - 1])[last.0 := Sha256(last.1)]
  }

  predicate Eligible(session: Session, name: string, spec: Spec) {
    session.group == spec.group && Get(session.services, name) == Some(spec.kind)
  }

  predicate ValidOwner(s: State, name: string, owner: Owner) {
    && name in s.tunnels
    && owner.session in s.sessions
    && Eligible(s.sessions[owner.session], name, s.tunnels[name])
  }

  function RetainValidOwners(s: State): State {
    s.(owners := map name | name in s.owners && ValidOwner(s, name, s.owners[name]) :: s.owners[name])
  }

  function ReleaseSession(s: State, id: nat): State {
    s.(owners := map name | name in s.owners && s.owners[name].session != id :: s.owners[name])
  }

  function RemoveSession(s: State, id: nat): State {
    ReleaseSession(s.(sessions := s.sessions - {id}), id)
  }

  function Available(s: State, id: nat): set<string>
    requires id in s.sessions
  {
    set name | name in s.tunnels && name !in s.owners && Eligible(s.sessions[id], name, s.tunnels[name])
  }

  function ClaimAvailable(s: State, id: nat): State {
    if id !in s.sessions then s
    else
      s.(owners := s.owners + map name | name in Available(s, id) :: Owner(id, Token(s.serial, name)),
         serial := s.serial + 1)
  }

  function Owned(s: State, id: nat): set<string> {
    set name | name in s.owners && s.owners[name].session == id
  }

  predicate DeviceOnline(s: State, device: string) {
    exists id <- s.sessions :: s.sessions[id].device == device
  }

  function RegisterOutcome(s: State, device: string, group: string, digest: Digest): RegisterResult {
    if |s.sessions| >= MAX_ONLINE_CLIENTS then Capacity
    else if Get(s.credentials, group) != Some(digest) then CredentialsChanged
    else if DeviceOnline(s, device) then DeviceIdConflict
    else Registered
  }

  function Register(s: State, id: nat, device: string, group: string, digest: Digest, declarations: seq<Declaration>): State {
    if RegisterOutcome(s, device, group, digest) == Registered then
      ClaimAvailable(AddSession(s, id, Session(device, group, digest, ServiceMap(declarations))), id)
    else s
  }

  function AddSession(s: State, id: nat, session: Session): State {
    s.(sessions := s.sessions[id := session])
  }

  function Redeclare(s: State, id: nat, services: map<string, Kind>): State
    requires id in s.sessions
  {
    s.(sessions := s.sessions[id := s.sessions[id].(services := services)])
  }

  function UpdateServices(s: State, id: nat, declarations: seq<Declaration>): State {
    if id !in s.sessions then s
    else ClaimAvailable(RetainValidOwners(Redeclare(s, id, ServiceMap(declarations))), id)
  }

  function UpdateReport(s: State, id: nat, declarations: seq<Declaration>): Option<ServiceUpdate> {
    if id !in s.sessions then None
    else
      var services := ServiceMap(declarations);
      Some(Report(services, s.sessions[id].services != services,
                  Owned(s, id), Owned(UpdateServices(s, id, declarations), id)))
  }

  function Report(services: map<string, Kind>, redeclared: bool, before: set<string>, after: set<string>): ServiceUpdate {
    var claimed, released := |after - before|, |before - after|;
    ServiceUpdate(|services|, |after|, claimed, released, redeclared || claimed != 0 || released != 0)
  }

  function ApplyTunnels(s: State, configs: seq<TunnelConfig>): State {
    RetainValidOwners(s.(tunnels := Specs(ByName(configs))))
  }

  /** Sessions whose key is not the one configured for their group any more. */
  function Revoked(s: State, credentials: map<string, Digest>): set<nat> {
    set id | id in s.sessions && Get(credentials, s.sessions[id].group) != Some(s.sessions[id].digest)
  }

  function ApplyCredentials(s: State, credentials: map<string, Digest>): State {
    var revoked := Revoked(s, credentials);
    s.(credentials := credentials,
       sessions := s.sessions - revoked,
       owners := map name | name in s.owners && s.owners[name].session !in revoked :: s.owners[name])
  }

  function DisconnectOutcome(s: State, id: nat, tunnel: string): TunnelDisconnect {
    if id !in s.sessions then SessionNotFound
    else if tunnel !in s.tunnels then TunnelNotFound
    else if tunnel !in s.owners || s.owners[tunnel].session != id then NotOwnedBySession
    else Disconnected(s.owners[tunnel].shutdown)
  }

  function DisconnectTunnel(s: State, id: nat, tunnel: string): State {
    if DisconnectOutcome(s, id, tunnel).Disconnected? then
      Redeclare(s, id, s.sessions[id].services - {tunnel}).(owners := s.owners - {tunnel})
    else s
  }

  /** The connection and shutdown token a public connection to `tunnel` is given. */
  function Find(s: State, tunnel: string): Option<Owner> {
    if tunnel in s.owners && s.owners[tunnel].session in s.sessions then Some(s.owners[tunnel]) else None
  }

  function Line(s: State, id: nat, name: string): ClientTunnel
    requires name in s.tunnels
  {
    var spec := s.tunnels[name];
    ClientTunnel(spec.kind, spec.bind.port, spec.localIp, spec.localPort,
      if name !in s.owners then Idle else if s.owners[name].session == id then Enabled else Occupied)
  }

  function CatalogOf(s: State, id: nat): Catalog {
    if id !in s.sessions then map[]
    else map name | name in s.tunnels && s.tunnels[name].group == s.sessions[id].group :: Line(s, id, name)
  }

  // ---- Invariant ----

  /** Each owner entry names a configured tunnel and a live session that may serve it. */
  predicate OwnersValid(s: State) {
    forall name <- s.owners :: ValidOwner(s, name, s.owners[name])
  }

  /** Each owner entry has a token of its own, made by an earlier claim. */
  predicate TokensValid(s: State) {
    forall name <- s.owners :: s.owners[name].shutdown.tunnel == name && s.owners[name].shutdown.serial < s.serial
  }

  predicate DevicesUnique(s: State) {
    forall a, b | a in s.sessions && b in s.sessions && a != b :: s.sessions[a].device != s.sessions[b].device
  }

  /** Every session logged in with the key its group has now. */
  predicate CredentialsCurrent(s: State) {
    forall id <- s.sessions :: Get(s.credentials, s.sessions[id].group) == Some(s.sessions[id].digest)
  }

  predicate SessionsValid(s: State) {
    DevicesUnique(s) && CredentialsCurrent(s) && |s.sessions| <= MAX_ONLINE_CLIENTS
  }

  predicate Inv(s: State) {
    OwnersValid(s) && TokensValid(s) && SessionsValid(s)
  }

  /** Every tunnel the session may serve has some owner. */
  predicate NothingLeftToClaim(s: State, id: nat) {
    id in s.sessions ==>
      forall name <- s.tunnels | Eligible(s.sessions[id], name, s.tunnels[name]) :: name in s.owners
  }

  /** No tunnel changed hands, and none got a new token without being released first. */
  predicate NothingStolen(s: State, t: State) {
    forall name | name in s.owners && name in t.owners :: t.owners[name] == s.owners[name]
  }

  /** Tokens are never reused: owners that are new have tokens made since `s`. */
  predicate TokensFresh(s: State, t: State) {
    && s.serial <= t.serial
    && forall name | name in t.owners && name !in s.owners :: s.serial <= t.owners[name].shutdown.serial
  }

  /** What every operation keeps. */
  predicate Follows(s: State, t: State) {
    Inv(t) && NothingStolen(s, t) && TokensFresh(s, t)
  }

  /** No session is new and none changed its key. */
  predicate SessionsKept(s: State, t: State) {
    forall id <- t.sessions :: id in s.sessions && t.sessions[id].digest == s.sessions[id].digest
  }

  // ---- What each operation keeps ----

  lemma SizeOfSubset<T>(a: set<T>, b: set<T>)
    requires a <= b
    ensures |a| <= |b|
  {
    assert b == a + (b - a);
  }

  lemma FewerSessions(s: State, ids: set<nat>)
    ensures |s.sessions - ids| <= |s.sessions|
  {
    assert (s.sessions - ids).Keys == s.sessions.Keys - ids;
    SizeOfSubset(s.sessions.Keys - ids, s.sessions.Keys);
  }

  lemma ClaimKeeps(s: State, id: nat)
    requires OwnersValid(s) && TokensValid(s) && id in s.sessions
    ensures var t := ClaimAvailable(s, id);
            && OwnersValid(t) && TokensValid(t)
            && NothingStolen(s, t) && s.owners.Keys <= t.owners.Keys
            && Owned(t, id) == Owned(s, id) + (t.owners.Keys - s.owners.Keys)
            && NothingLeftToClaim(t, id) && TokensFresh(s, t)
  {
  }

  lemma RetainKeeps(s: State)
    requires TokensValid(s)
    ensures var t := RetainValidOwners(s);
            && OwnersValid(t) && TokensValid(t)
            && NothingStolen(s, t) && t.owners.Keys <= s.owners.Keys
  {
  }

  lemma RedeclareKeeps(s: State, id: nat, services: map<string, Kind>)
    requires SessionsValid(s) && id in s.sessions
    ensures SessionsValid(Redeclare(s, id, services))
  {
    assert Redeclare(s, id, services).sessions.Keys == s.sessions.Keys;
  }

  /** `register`, for an id that was never used before. */
  lemma RegisterKeeps(s: State, id: nat, device: string, group: string, digest: Digest, declarations: seq<Declaration>)
    requires Inv(s) && id !in s.sessions
    ensures var t := Register(s, id, device, group, digest, declarations);
            && Follows(s, t) && NothingLeftToClaim(t, id)
            && (RegisterOutcome(s, device, group, digest) == Registered ==>
                  t.sessions == s.sessions[id := Session(device, group, digest, ServiceMap(declarations))])
  {
    if RegisterOutcome(s, device, group, digest) == Registered {
      var session := Session(device, group, digest, ServiceMap(declarations));
      AddSessionKeeps(s, id, session);
      ClaimKeeps(AddSession(s, id, session), id);
    }
  }

  lemma AddSessionKeeps(s: State, id: nat, session: Session)
    requires Inv(s) && id !in s.sessions
    requires RegisterOutcome(s, session.device, session.group, session.digest) == Registered
    ensures Inv(AddSession(s, id, session))
  {
    var t := AddSession(s, id, session);
    AddSessionKeepsDevices(s, id, session);
    OneMoreSession(s, id, session);
    assert CredentialsCurrent(t);
    AddSessionKeepsOwners(s, id, session);
  }

  lemma OneMoreSession(s: State, id: nat, session: Session)
    requires id !in s.sessions
    ensures |AddSession(s, id, session).sessions| == |s.sessions| + 1
  {
    assert AddSession(s, id, session).sessions.Keys == s.sessions.Keys + {id};
  }

  lemma AddSessionKeepsOwners(s: State, id: nat, session: Session)
    requires OwnersValid(s) && id !in s.sessions
    ensures OwnersValid(AddSession(s, id, session))
  {
    var t := AddSession(s, id, session);
    forall name | name in t.owners ensures ValidOwner(t, name, t.owners[name]) {
      assert ValidOwner(s, name, s.owners[name]);
    }
  }

  lemma AddSessionKeepsDevices(s: State, id: nat, session: Session)
    requires DevicesUnique(s) && id !in s.sessions && !DeviceOnline(s, session.device)
    ensures DevicesUnique(AddSession(s, id, session))
  {
  }

  lemma UpdateServicesKeeps(s: State, id: nat, declarations: seq<Declaration>)
    requires Inv(s)
    ensures var t := UpdateServices(s, id, declarations);
            Follows(s, t) && SessionsKept(s, t) && NothingLeftToClaim(t, id)
  {
    if id in s.sessions {
      var redeclared := Redeclare(s, id, ServiceMap(declarations));
      RedeclareKeeps(s, id, ServiceMap(declarations));
      ReassignKeeps(s, redeclared, id);
      ReleasedStaysReleased(s, id, ServiceMap(declarations));
      NothingStolenByUpdate(s, RetainValidOwners(redeclared), id);
    }
  }

  /** Retaining and claiming, after the session declared other services. */
  lemma ReassignKeeps(s: State, redeclared: State, id: nat)
    requires TokensValid(s) && id in redeclared.sessions && redeclared == s.(sessions := redeclared.sessions)
    ensures var t := ClaimAvailable(RetainValidOwners(redeclared), id);
            OwnersValid(t) && TokensValid(t) && NothingLeftToClaim(t, id) && t == redeclared.(owners := t.owners, serial := s.serial + 1)
  {
    RetainKeeps(redeclared);
    ClaimKeeps(RetainValidOwners(redeclared), id);
  }

  lemma NothingStolenByUpdate(s: State, retained: State, id: nat)
    requires id in retained.sessions && retained.serial == s.serial
    requires forall name <- retained.owners :: name in s.owners && retained.owners[name] == s.owners[name]
    requires forall name | name in s.owners && name !in retained.owners :: name !in Available(retained, id)
    ensures NothingStolen(s, ClaimAvailable(retained, id)) && TokensFresh(s, ClaimAvailable(retained, id))
  {
  }

  /** What a redeclaration releases, the same session cannot claim in the same breath. */
  lemma ReleasedStaysReleased(s: State, id: nat, services: map<string, Kind>)
    requires OwnersValid(s) && id in s.sessions
    ensures var retained := RetainValidOwners(Redeclare(s, id, services));
            forall name | name in s.owners && name !in retained.owners :: name !in Available(retained, id)
  {
    var redeclared := Redeclare(s, id, services);
    forall name | name in s.owners && name !in RetainValidOwners(redeclared).owners
      ensures !Eligible(redeclared.sessions[id], name, s.tunnels[name])
    {
      assert ValidOwner(s, name, s.owners[name]) && !ValidOwner(redeclared, name, s.owners[name]);
    }
  }

  lemma ApplyTunnelsKeeps(s: State, configs: seq<TunnelConfig>)
    requires Inv(s)
    ensures var t := ApplyTunnels(s, configs);
            Follows(s, t) && SessionsKept(s, t) && t.owners.Keys <= s.owners.Keys
  {
  }

  lemma ApplyCredentialsKeeps(s: State, credentials: map<string, Digest>)
    requires Inv(s)
    ensures var t := ApplyCredentials(s, credentials);
            Follows(s, t) && SessionsKept(s, t) && t.owners.Keys <= s.owners.Keys
  {
    var t := ApplyCredentials(s, credentials);
    FewerStayValid(s, Revoked(s, credentials), credentials);
    assert SessionsValid(t);
    UnrevokedOwners(s, credentials);
    FewerOwnersValid(s, t);
  }

  lemma UnrevokedOwners(s: State, credentials: map<string, Digest>)
    requires OwnersValid(s)
    ensures forall name <- ApplyCredentials(s, credentials).owners ::
              name in s.owners && ApplyCredentials(s, credentials).owners[name] == s.owners[name]
              && s.owners[name].session in ApplyCredentials(s, credentials).sessions
  {
    forall name | name in ApplyCredentials(s, credentials).owners
      ensures s.owners[name].session in ApplyCredentials(s, credentials).sessions
    {
      assert ValidOwner(s, name, s.owners[name]);
    }
  }

  lemma FewerStayValid(s: State, ids: set<nat>, credentials: map<string, Digest>)
    requires DevicesUnique(s) && |s.sessions| <= MAX_ONLINE_CLIENTS
    requires forall id <- s.sessions | id !in ids :: Get(credentials, s.sessions[id].group) == Some(s.sessions[id].digest)
    ensures SessionsValid(s.(sessions := s.sessions - ids, credentials := credentials))
  {
    FewerSessions(s, ids);
  }

  /** Owner entries disappear together with their sessions. */
  lemma FewerOwnersValid(s: State, t: State)
    requires OwnersValid(s) && TokensValid(s) && t.tunnels == s.tunnels && t.serial == s.serial
    requires forall name <- t.owners :: name in s.owners && t.owners[name] == s.owners[name]
    requires forall name <- t.owners :: s.owners[name].session in t.sessions
    requires forall id <- t.sessions :: id in s.sessions && t.sessions[id] == s.sessions[id]
    ensures OwnersValid(t) && TokensValid(t) && NothingStolen(s, t) && TokensFresh(s, t)
  {
    forall name | name in t.owners ensures ValidOwner(t, name, t.owners[name]) {
      assert ValidOwner(s, name, s.owners[name]);
    }
  }

  lemma RemoveSessionKeeps(s: State, id: nat)
    requires Inv(s)
    ensures var t := RemoveSession(s, id);
            Follows(s, t) && SessionsKept(s, t) && t.owners.Keys <= s.owners.Keys
  {
    var t := RemoveSession(s, id);
    FewerStayValid(s, {id}, s.credentials);
    assert SessionsValid(t);
    RemovedOwners(s, id);
    FewerOwnersValid(s, t);
  }

  lemma RemovedOwners(s: State, id: nat)
    requires OwnersValid(s)
    ensures forall name <- RemoveSession(s, id).owners ::
              name in s.owners && RemoveSession(s, id).owners[name] == s.owners[name]
              && s.owners[name].session in RemoveSession(s, id).sessions
  {
    forall name | name in RemoveSession(s, id).owners ensures s.owners[name].session in RemoveSession(s, id).sessions {
      assert ValidOwner(s, name, s.owners[name]);
    }
  }

  lemma DisconnectTunnelKeeps(s: State, id: nat, tunnel: string)
    requires Inv(s)
    ensures var t := DisconnectTunnel(s, id, tunnel);
            Follows(s, t) && SessionsKept(s, t) && t.owners.Keys <= s.owners.Keys
  {
    if DisconnectOutcome(s, id, tunnel).Disconnected? {
      var t := DisconnectTunnel(s, id, tunnel);
      RedeclareKeeps(s, id, s.sessions[id].services - {tunnel});
      assert SessionsValid(t);
      ReleasedTunnelOwners(s, id, tunnel);
    }
  }

  lemma ReleasedTunnelOwners(s: State, id: nat, tunnel: string)
    requires OwnersValid(s) && DisconnectOutcome(s, id, tunnel).Disconnected?
    ensures OwnersValid(DisconnectTunnel(s, id, tunnel))
  {
    var t := DisconnectTunnel(s, id, tunnel);
    forall name | name in t.owners ensures ValidOwner(t, name, t.owners[name]) {
      assert ValidOwner(s, name, s.owners[name]);
    }
  }

  // ---- Exactness ----

  /** A credential reload revokes exactly the sessions whose group got another key or vanished. */
  lemma RevokesExactly(s: State, credentials: map<string, Digest>, id: nat)
    requires Inv(s) && id in s.sessions
    ensures var group := s.sessions[id].group;
            id !in ApplyCredentials(s, credentials).sessions <==> Get(credentials, group) != Get(s.credentials, group)
  {
  }

  lemma EmptyDifference<T>(a: set<T>, b: set<T>)
    requires |a - b| == 0 && |b - a| == 0
    ensures a == b
  {
    assert a == (a - b) + (a * b) && b == (b - a) + (a * b);
  }

  /** An update that is not announced changed nothing anybody can see: all sessions, tunnels,
      owners and tokens, hence all catalogs, are as before. */
  lemma SilentUpdateIsSilent(s: State, id: nat, declarations: seq<Declaration>)
    requires Inv(s) && UpdateReport(s, id, declarations).Some?
    requires !UpdateReport(s, id, declarations).value.changed
    ensures UpdateServices(s, id, declarations) == s.(serial := s.serial + 1)
  {
    EmptyDifference(Owned(s, id), Owned(UpdateServices(s, id, declarations), id));
    assert Redeclare(s, id, ServiceMap(declarations)) == s;
    RetainIsIdentity(s);
    NothingClaimed(s, id);
  }

  lemma RetainIsIdentity(s: State)
    requires OwnersValid(s)
    ensures RetainValidOwners(s) == s
  {
    assert RetainValidOwners(s).owners == s.owners;
  }

  lemma NothingClaimed(s: State, id: nat)
    requires OwnersValid(s) && TokensValid(s) && id in s.sessions
    requires Owned(ClaimAvailable(s, id), id) == Owned(s, id)
    ensures ClaimAvailable(s, id).owners == s.owners
  {
    ClaimKeeps(s, id);
    var t := ClaimAvailable(s, id);
    forall name | name in t.owners ensures name in s.owners {
      assert name in s.owners || name in Owned(t, id);
    }
  }

  /** Conversely an announced update did change the declarations or the session's tunnels. */
  lemma AnnouncedUpdateShows(s: State, id: nat, declarations: seq<Declaration>)
    requires Inv(s) && UpdateReport(s, id, declarations).Some?
    requires UpdateReport(s, id, declarations).value.changed
    ensures var t := UpdateServices(s, id, declarations);
            t.sessions[id].services != s.sessions[id].services || Owned(t, id) != Owned(s, id)
  {
    var t := UpdateServices(s, id, declarations);
    if Owned(t, id) == Owned(s, id) {
      assert Owned(t, id) - Owned(s, id) == {} && Owned(s, id) - Owned(t, id) == {};
    }
  }

  /** Credentials play no part in what clients are shown. */
  lemma UnrevokedReloadIsSilent(s: State, credentials: map<string, Digest>)
    requires Revoked(s, credentials) == {}
    ensures ApplyCredentials(s, credentials) == s.(credentials := credentials)
  {
    assert s.sessions - {} == s.sessions;
    assert ApplyCredentials(s, credentials).owners == s.owners;
  }

  /** Undoing a reload of the tunnel list restores the list and can only have lost owners. */
  lemma ApplyTunnelsTwice(s: State, first: seq<TunnelConfig>, second: seq<TunnelConfig>)
    requires Specs(ByName(second)) == s.tunnels
    ensures var t := ApplyTunnels(ApplyTunnels(s, first), second);
            && t == s.(owners := t.owners)
            && t.owners.Keys <= s.owners.Keys && NothingStolen(s, t)
  {
  }
}
