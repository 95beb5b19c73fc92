/**
Sessions over every run of the tunnel protocol: who gets in, who is gone, and what clients are shown
(crates/gaterust-tunnel/src/server/mod.rs and crates/gaterust-tunnel/src/runtime.rs).
*/
module TunnelSessions {
  import opened Options
  import opened TunnelConfigs
  import opened TunnelState
  import opened TunnelEffects
  import opened TunnelProtocol

  // ---- Sessions and credentials ----

  /** Every session has a loop that has not come to its end. */
  predicate LoopsAlive(sessions: map<nat, Session>, loops: map<nat, Loop>) {
    forall id <- sessions :: id in loops && !loops[id].phase.Gone?
  }

  /** The runtime's digests are those of the group list, or of the list about to replace it. */
  predicate DigestsFollow(credentials: map<string, Digest>, groups: seq<(string, string)>, reloading: Option<seq<(string, string)>>) {
    credentials == CredentialMap(if reloading.Some? then reloading.value else groups)
  }

  lemma StepKeepsAlive(s: System, step: Step)
    requires LoopsValid(s.state.sessions, s.nextId, s.loops) && LoopsAlive(s.state.sessions, s.loops) && Possible(s, step)
    ensures LoopsAlive(Do(s, step).state.sessions, Do(s, step).loops)
  {
    if Commits(step) {
      CommitKeepsAlive(s, step);
    } else {
      OthersKeepState(s, step);
    }
  }

  lemma CommitKeepsAlive(s: System, step: Step)
    requires LoopsValid(s.state.sessions, s.nextId, s.loops) && LoopsAlive(s.state.sessions, s.loops) && Possible(s, step)
    requires Commits(step)
    ensures LoopsAlive(Do(s, step).state.sessions, Do(s, step).loops)
  {
    if step.Login? {
      LoginKeepsAlive(s, step.id, step.device, step.declarations);
    } else {
      NobodyNew(s, step);
      LoopsMoveOn(s, step);
    }
  }

  lemma LoginKeepsAlive(s: System, id: nat, device: string, declarations: seq<Declaration>)
    requires LoopsValid(s.state.sessions, s.nextId, s.loops) && LoopsAlive(s.state.sessions, s.loops)
    requires Possible(s, Login(id, device, declarations))
    ensures var t := DoLogin(s, id, device, declarations); LoopsAlive(t.state.sessions, t.loops)
  {
    var t := DoLogin(s, id, device, declarations);
    assert id !in s.state.sessions;
    forall other | other in t.state.sessions ensures other in t.loops && !t.loops[other].phase.Gone? {
      assert other == id || other in s.state.sessions;
    }
  }

  /** No other step but a login brings a session. */
  lemma NobodyNew(s: System, step: Step)
    requires Possible(s, step) && Commits(step) && !step.Login?
    ensures Do(s, step).state.sessions.Keys <= s.state.sessions.Keys
    ensures step.Leave? ==> step.id !in Do(s, step).state.sessions
  {
  }

  lemma LoopsMoveOn(s: System, step: Step)
    requires Possible(s, step) && Commits(step) && !step.Login?
    ensures s.loops.Keys <= Do(s, step).loops.Keys
    ensures forall id <- s.loops | !(step.Leave? && step.id == id) :: Do(s, step).loops[id].phase.Gone? ==> s.loops[id].phase.Gone?
  {
    if step.Update? {
      UpdateSendsNothing(s, step.id, step.request, step.declarations);
    }
  }

  lemma StepKeepsDigests(s: System, step: Step)
    requires DigestsFollow(s.state.credentials, s.groups, s.reloading) && Possible(s, step)
    ensures var t := Do(s, step); DigestsFollow(t.state.credentials, t.groups, t.reloading)
  {
    if Commits(step) {
      CommitKeepsDigests(s, step);
    } else {
      OthersKeepState(s, step);
    }
  }

  lemma CommitKeepsDigests(s: System, step: Step)
    requires DigestsFollow(s.state.credentials, s.groups, s.reloading) && Possible(s, step) && Commits(step)
    ensures var t := Do(s, step); DigestsFollow(t.state.credentials, t.groups, t.reloading)
  {
  }

  lemma {:induction false} RunKeepsSessions(groups: seq<(string, string)>, configs: seq<TunnelConfig>, steps: seq<Step>)
    ensures var s := Run(Initial(groups, configs), steps);
            LoopsAlive(s.state.sessions, s.loops) && DigestsFollow(s.state.credentials, s.groups, s.reloading)
  {
    if steps != [] {
      var init, last := steps[..|steps| - 1], steps[|steps| - 1];
      assert steps == init + [last];
      RunKeepsSessions(groups, configs, init);
      RunAppend(Initial(groups, configs), init, last);
      InitialValid(groups, configs);
      RunKeeps(Initial(groups, configs), init);
      var s := Run(Initial(groups, configs), init);
      if Possible(s, last) {
        StepKeepsAlive(s, last);
        StepKeepsDigests(s, last);
      }
    }
  }

  // ---- Who is gone ----

  /** In every run every session belongs to a client that logged in and whose loop still runs: no
      place is taken by anybody who has left. */
  lemma NobodyLingers(groups: seq<(string, string)>, configs: seq<TunnelConfig>, steps: seq<Step>, id: nat)
    requires id in Run(Initial(groups, configs), steps).state.sessions
    ensures var s := Run(Initial(groups, configs), steps);
            id in s.loops && !NotLoggedIn(s.loops[id]) && !s.loops[id].phase.Gone?
  {
    RunKeepsSessions(groups, configs, steps);
    InitialValid(groups, configs);
    RunKeeps(Initial(groups, configs), steps);
  }

  /** In every run, once a session's loop has left or an administrator has disconnected it, the
      session is gone, owns nothing, and its device may log in again; all other sessions, and the
      tunnels they own, are exactly as before. */
  lemma DepartureExactly(groups: seq<(string, string)>, configs: seq<TunnelConfig>, steps: seq<Step>, step: Step, other: nat, name: string)
    requires Possible(Run(Initial(groups, configs), steps), step) && (step.Leave? || step.Disconnect?)
    ensures var s := Run(Initial(groups, configs), steps).state;
            var t := Do(Run(Initial(groups, configs), steps), step).state;
            && SameSettings(s, t) && step.id !in t.sessions
            && (other != step.id ==> Get(t.sessions, other) == Get(s.sessions, other))
            && Get(t.owners, name) == (if name in s.owners && s.owners[name].session != step.id then Some(s.owners[name]) else None)
            && (step.id in s.sessions ==>
                  var session := s.sessions[step.id];
                  RegisterOutcome(t, session.device, session.group, session.digest) == Registered)
  {
    InitialValid(groups, configs);
    RunKeeps(Initial(groups, configs), steps);
    LeavingIsRemoval(Run(Initial(groups, configs), steps), step);
    RemovalEffect(Run(Initial(groups, configs), steps).state, step.id, other, name);
  }

  lemma LeavingIsRemoval(s: System, step: Step)
    requires Possible(s, step) && (step.Leave? || step.Disconnect?)
    ensures Do(s, step).state == if step.id in s.state.sessions then RemoveSession(s.state, step.id) else s.state
  {
  }

  lemma RemovalEffect(s: State, id: nat, other: nat, name: string)
    requires Inv(s)
    ensures var t := if id in s.sessions then RemoveSession(s, id) else s;
            && SameSettings(s, t) && id !in t.sessions
            && (other != id ==> Get(t.sessions, other) == Get(s.sessions, other))
            && Get(t.owners, name) == (if name in s.owners && s.owners[name].session != id then Some(s.owners[name]) else None)
            && (id in s.sessions ==>
                  RegisterOutcome(t, s.sessions[id].device, s.sessions[id].group, s.sessions[id].digest) == Registered)
  {
    RemoveSessionExactly(s, id, other, name);
    if id in s.sessions {
      DeviceFreeAgain(s, id);
    } else {
      assert name in s.owners ==> ValidOwner(s, name, s.owners[name]);
    }
  }

  // ---- Who gets in ----

  /** The first group whose key was presented, if any has it. */
  lemma {:induction false} GroupOfExactly(groups: seq<(string, string)>, key: string)
    ensures match GroupOf(groups, key)
            case None => forall entry <- groups :: entry.1 != key
            case Some(group) =>
              exists i | 0 <= i < |groups| :: groups[i] == (group, key) && forall j | 0 <= j < i :: groups[j].1 != key
  {
    if groups != [] && groups[0].1 != key {
      GroupOfExactly(groups[1..], key);
      assert forall entry <- groups :: entry == groups[0] || entry in groups[1..];
      if GroupOf(groups, key).Some? {
        var group := GroupOf(groups, key).value;
        var i :| 0 <= i < |groups[1..]| && groups[1..][i] == (group, key) && forall j | 0 <= j < i :: groups[1..][j].1 != key;
        assert groups[i + 1] == (group, key);
        forall j | 0 <= j < i + 1 ensures groups[j].1 != key {
          assert j > 0 ==> groups[j] == groups[1..][j - 1];
        }
      }
    }
  }

  predicate GroupsUnique(groups: seq<(string, string)>) {
    forall i, j | 0 <= i < j < |groups| :: groups[i].0 != groups[j].0
  }

  /** A listed key opens its group, as far as the digests go. */
  lemma ListedKeyOpens(groups: seq<(string, string)>, key: string)
    requires GroupsUnique(groups) && GroupOf(groups, key).Some?
    ensures (GroupOf(groups, key).value, key) in groups
    ensures Get(CredentialMap(groups), GroupOf(groups, key).value) == Some(Sha256(key))
  {
    GroupOfExactly(groups, key);
    CredentialMapExactly(groups, GroupOf(groups, key).value, key);
  }

  /** The three steps of a login by a new connection. */
  function LoginSteps(s: System, key: string, device: string, declarations: seq<Declaration>): seq<Step> {
    [Accept, Authenticate(s.nextId, key), Login(s.nextId, device, declarations)]
  }

  /**
  In every run, with no credential reload half done and group names unique as validation ensures: a
  connection that presents a key logs in if and only if some group has that key, fewer than 128
  sessions exist and the device is not online. Then its session is of a group with that key, with
  what it declared, and everybody else is as before; otherwise nothing changes.
  */
  lemma LoginExactly(groups: seq<(string, string)>, configs: seq<TunnelConfig>, steps: seq<Step>,
                     key: string, device: string, declarations: seq<Declaration>)
    requires var s := Run(Initial(groups, configs), steps); s.reloading.None? && GroupsUnique(s.groups)
    ensures var s := Run(Initial(groups, configs), steps);
            var t := Run(s, LoginSteps(s, key, device, declarations));
            if (exists entry <- s.groups :: entry.1 == key) && |s.state.sessions| < MAX_ONLINE_CLIENTS
               && (forall other <- s.state.sessions :: s.state.sessions[other].device != device)
            then
              exists group: string ::
                && (group, key) in s.groups
                && t.state.sessions == s.state.sessions[s.nextId := Session(device, group, Sha256(key), ServiceMap(declarations))]
            else t.state == s.state
  {
    RunKeepsSessions(groups, configs, steps);
    InitialValid(groups, configs);
    RunKeeps(Initial(groups, configs), steps);
    LoginFrom(Run(Initial(groups, configs), steps), key, device, declarations);
  }

  lemma LoginFrom(s: System, key: string, device: string, declarations: seq<Declaration>)
    requires SystemInv(s) && s.reloading.None? && GroupsUnique(s.groups) && DigestsFollow(s.state.credentials, s.groups, s.reloading)
    ensures var t := Run(s, LoginSteps(s, key, device, declarations));
            if (exists entry <- s.groups :: entry.1 == key) && |s.state.sessions| < MAX_ONLINE_CLIENTS
               && (forall other <- s.state.sessions :: s.state.sessions[other].device != device)
            then
              exists group: string ::
                && (group, key) in s.groups
                && t.state.sessions == s.state.sessions[s.nextId := Session(device, group, Sha256(key), ServiceMap(declarations))]
            else t.state == s.state
  {
    LoginRuns(s, key, device, declarations);
    GroupOfExactly(s.groups, key);
    if GroupOf(s.groups, key).Some? {
      var group := GroupOf(s.groups, key).value;
      ListedKeyOpens(s.groups, key);
      RegisterExactly(s.state, s.nextId, device, group, Sha256(key), declarations);
    }
  }

  lemma LoginRuns(s: System, key: string, device: string, declarations: seq<Declaration>)
    requires s.nextId !in s.loops
    ensures Run(s, LoginSteps(s, key, device, declarations)).state ==
              match GroupOf(s.groups, key)
              case None => s.state
              case Some(group) => Register(s.state, s.nextId, device, group, Sha256(key), declarations)
  {
    var steps := LoginSteps(s, key, device, declarations);
    assert steps[1..] == [Authenticate(s.nextId, key), Login(s.nextId, device, declarations)];
    assert steps[1..][1..] == [Login(s.nextId, device, declarations)] && steps[1..][1..][1..] == [];
    var a := Do(s, Accept);
    var b := Do(a, Authenticate(s.nextId, key));
    var last := [Login(s.nextId, device, declarations)];
    assert Run(s, steps) == Run(b, last) && last[1..] == [];
    if GroupOf(s.groups, key).Some? {
      assert Run(b, last) == Run(Do(b, last[0]), []) == DoLogin(b, s.nextId, device, declarations);
    } else {
      assert Run(b, last) == Run(b, []) == b;
    }
  }

  // ---- What clients are shown ----

  /** The list was the session's catalog at some moment of the run. */
  ghost predicate WasCatalog(groups: seq<(string, string)>, configs: seq<TunnelConfig>, steps: seq<Step>, id: nat, tunnels: Catalog) {
    exists n | 0 <= n <= |steps| :: tunnels == CatalogOf(Run(Initial(groups, configs), steps[..n]).state, id)
  }

  ghost predicate SentWereCatalogs(groups: seq<(string, string)>, configs: seq<TunnelConfig>, steps: seq<Step>, id: nat, loop: Loop) {
    && (forall frame <- loop.sent :: WasCatalog(groups, configs, steps, id, frame.tunnels))
    && (loop.phase.Sending? ==> WasCatalog(groups, configs, steps, id, loop.phase.tunnels))
  }

  lemma WasCatalogGrows(groups: seq<(string, string)>, configs: seq<TunnelConfig>, steps: seq<Step>, last: Step, id: nat, tunnels: Catalog)
    requires WasCatalog(groups, configs, steps, id, tunnels)
    ensures WasCatalog(groups, configs, steps + [last], id, tunnels)
  {
    var n :| 0 <= n <= |steps| && tunnels == CatalogOf(Run(Initial(groups, configs), steps[..n]).state, id);
    assert (steps + [last])[..n] == steps[..n];
  }

  /** Where the frames of a loop come from: a frame sent was read before, and is read from the
      catalog of that moment. */
  predicate FramesFrom(before: Option<Loop>, after: Loop, catalog: Catalog) {
    && (|| (after.sent == if before.Some? then before.value.sent else [])
        || (before.Some? && before.value.phase.Sending?
            && after.sent == before.value.sent + [Frame(before.value.phase.reply, before.value.phase.tunnels)]))
    && (after.phase.Sending? ==> after.phase.tunnels == catalog || (before.Some? && before.value.phase == after.phase))
  }

  lemma StepFrames(s: System, step: Step, id: nat)
    requires Possible(s, step) && id in Do(s, step).loops && s.nextId !in s.loops
    ensures FramesFrom(Get(s.loops, id), Do(s, step).loops[id], CatalogOf(s.state, id))
  {
    if Commits(step) {
      CommitFrames(s, step, id);
    } else {
      OtherFrames(s, step, id);
    }
  }

  lemma CommitFrames(s: System, step: Step, id: nat)
    requires Possible(s, step) && Commits(step) && id in Do(s, step).loops
    ensures FramesFrom(Get(s.loops, id), Do(s, step).loops[id], CatalogOf(s.state, id))
  {
    if step.Login? {
      LoginSendsNothing(s, step.id, step.device, step.declarations);
    } else if step.Update? {
      UpdateSendsNothing(s, step.id, step.request, step.declarations);
    } else {
      RemovalsSendNothing(s, step, id);
    }
  }

  lemma RemovalsSendNothing(s: System, step: Step, id: nat)
    requires Possible(s, step) && Commits(step) && !step.Login? && !step.Update? && id in Do(s, step).loops
    ensures id in s.loops && (Do(s, step).loops[id] == s.loops[id] || Do(s, step).loops[id] == s.loops[id].(phase := Gone))
  {
  }

  lemma LoginSendsNothing(s: System, id: nat, device: string, declarations: seq<Declaration>)
    requires id in s.loops && s.loops[id].phase.Authenticated?
    ensures var loops := DoLogin(s, id, device, declarations).loops;
            loops == s.loops[id := loops[id]] && loops[id].sent == s.loops[id].sent && !loops[id].phase.Sending?
  {
  }

  lemma UpdateSendsNothing(s: System, id: nat, request: nat, declarations: seq<Declaration>)
    requires id in s.loops
    ensures var loops := DoUpdate(s, id, request, declarations).loops;
            loops == s.loops[id := loops[id]] && loops[id].sent == s.loops[id].sent
            && !loops[id].phase.Sending? && !loops[id].phase.Gone?
  {
  }

  lemma OtherFrames(s: System, step: Step, id: nat)
    requires Possible(s, step) && !Commits(step) && id in Do(s, step).loops && s.nextId !in s.loops
    ensures FramesFrom(Get(s.loops, id), Do(s, step).loops[id], CatalogOf(s.state, id))
  {
  }

  lemma {:induction false} RunShowsCatalogs(groups: seq<(string, string)>, configs: seq<TunnelConfig>, steps: seq<Step>, id: nat)
    requires id in Run(Initial(groups, configs), steps).loops
    ensures SentWereCatalogs(groups, configs, steps, id, Run(Initial(groups, configs), steps).loops[id])
  {
    if steps != [] {
      var init, last := steps[..|steps| - 1], steps[|steps| - 1];
      assert steps == init + [last];
      var s := Run(Initial(groups, configs), init);
      RunAppend(Initial(groups, configs), init, last);
      InitialValid(groups, configs);
      RunKeeps(Initial(groups, configs), init);
      if id in s.loops {
        RunShowsCatalogs(groups, configs, init, id);
      }
      if Possible(s, last) {
        StepFrames(s, last, id);
        NowShown(groups, configs, init, id);
        ShownAfter(groups, configs, init, last, id, Get(s.loops, id), Do(s, last).loops[id], CatalogOf(s.state, id));
      } else {
        ShownAfter(groups, configs, init, last, id, Get(s.loops, id), s.loops[id], CatalogOf(s.state, id));
      }
    }
  }

  lemma NowShown(groups: seq<(string, string)>, configs: seq<TunnelConfig>, init: seq<Step>, id: nat)
    ensures WasCatalog(groups, configs, init, id, CatalogOf(Run(Initial(groups, configs), init).state, id))
  {
    assert init[..|init|] == init;
  }

  lemma ShownAfter(groups: seq<(string, string)>, configs: seq<TunnelConfig>, init: seq<Step>, last: Step, id: nat,
                   before: Option<Loop>, after: Loop, catalog: Catalog)
    requires before.Some? ==> SentWereCatalogs(groups, configs, init, id, before.value)
    requires FramesFrom(before, after, catalog)
    requires WasCatalog(groups, configs, init, id, catalog) || before == Some(after)
    ensures SentWereCatalogs(groups, configs, init + [last], id, after)
  {
    forall frame | frame in after.sent ensures WasCatalog(groups, configs, init + [last], id, frame.tunnels) {
      WasCatalogGrows(groups, configs, init, last, id, frame.tunnels);
    }
    if after.phase.Sending? {
      WasCatalogGrows(groups, configs, init, last, id, after.phase.tunnels);
    }
  }

  /** In every run every line of every frame ever sent to a client is of a tunnel that was, at some
      moment, configured for the group of the client's session, with its kind, port and local
      address: nobody is ever shown a tunnel of another group. */
  lemma FramesShowOwnGroup(groups: seq<(string, string)>, configs: seq<TunnelConfig>, steps: seq<Step>, id: nat, k: nat, name: string)
    returns (n: nat)
    requires var s := Run(Initial(groups, configs), steps);
             id in s.loops && k < |s.loops[id].sent| && name in s.loops[id].sent[k].tunnels
    ensures n <= |steps|
    ensures var s, past := Run(Initial(groups, configs), steps), Run(Initial(groups, configs), steps[..n]).state;
            var line := s.loops[id].sent[k].tunnels[name];
            && id in past.sessions && name in past.tunnels && past.tunnels[name].group == past.sessions[id].group
            && line.kind == past.tunnels[name].kind && line.serverPort == past.tunnels[name].bind.port
            && line.localIp == past.tunnels[name].localIp && line.localPort == past.tunnels[name].localPort
  {
    RunShowsCatalogs(groups, configs, steps, id);
    var tunnels := Run(Initial(groups, configs), steps).loops[id].sent[k].tunnels;
    assert WasCatalog(groups, configs, steps, id, tunnels);
    n :| 0 <= n <= |steps| && tunnels == CatalogOf(Run(Initial(groups, configs), steps[..n]).state, id);
    CatalogExactly(Run(Initial(groups, configs), steps[..n]).state, id, name);
  }

  /** In every run a public connection to a tunnel is accepted exactly if the tunnel has an owner,
      and gets that owner's token. */
  lemma OpensToOwner(groups: seq<(string, string)>, configs: seq<TunnelConfig>, steps: seq<Step>, stream: nat, tunnel: string)
    ensures var s := Run(Initial(groups, configs), steps);
            && (Possible(s, Open(stream, tunnel)) <==> tunnel in s.state.owners)
            && (tunnel in s.state.owners ==>
                  Get(Do(s, Open(stream, tunnel)).streams, stream) == Some(s.state.owners[tunnel].shutdown))
  {
    InitialValid(groups, configs);
    RunKeeps(Initial(groups, configs), steps);
    OpenFrom(Run(Initial(groups, configs), steps), stream, tunnel);
  }

  lemma OpenFrom(s: System, stream: nat, tunnel: string)
    requires Inv(s.state)
    ensures Possible(s, Open(stream, tunnel)) <==> tunnel in s.state.owners
    ensures tunnel in s.state.owners ==>
              Get(Do(s, Open(stream, tunnel)).streams, stream) == Some(s.state.owners[tunnel].shutdown)
  {
    FindExactly(s.state, tunnel);
  }

  /** The tunnel list the server was started with or last reloaded. */
  function LastConfigs(configs: seq<TunnelConfig>, steps: seq<Step>): seq<TunnelConfig> {
    if steps == [] then configs
    else if steps[|steps| - 1].ReloadTunnels? then steps[|steps| - 1].configs
    else LastConfigs(configs, steps[..|steps| - 1])
  }

  /** In every run the runtime's tunnels are exactly those of the list last applied. */
  lemma {:induction false} TunnelsFollowConfig(groups: seq<(string, string)>, configs: seq<TunnelConfig>, steps: seq<Step>)
    ensures Run(Initial(groups, configs), steps).state.tunnels == Specs(ByName(LastConfigs(configs, steps)))
  {
    if steps != [] {
      var init, last := steps[..|steps| - 1], steps[|steps| - 1];
      assert steps == init + [last];
      TunnelsFollowConfig(groups, configs, init);
      RunAppend(Initial(groups, configs), init, last);
      var s := Run(Initial(groups, configs), init);
      if Possible(s, last) {
        StepTunnels(s, last);
      }
    }
  }

  lemma StepTunnels(s: System, step: Step)
    requires Possible(s, step)
    ensures Do(s, step).state.tunnels == if step.ReloadTunnels? then Specs(ByName(step.configs)) else s.state.tunnels
  {
    if !Commits(step) {
      OthersKeepState(s, step);
    } else {
      CommitTunnels(s, step);
    }
  }

  lemma CommitTunnels(s: System, step: Step)
    requires Possible(s, step) && Commits(step)
    ensures Do(s, step).state.tunnels == if step.ReloadTunnels? then Specs(ByName(step.configs)) else s.state.tunnels
  {
    match step
    case Login(id, device, declarations) =>
      var phase := s.loops[id].phase;
      RegisterKeepsTunnels(s.state, id, device, phase.group, phase.digest, declarations);
    case Update(id, _, declarations) => UpdateKeepsTunnels(s.state, id, declarations);
    case Cut(id, tunnel) => CutKeepsTunnels(s.state, id, tunnel);
    case _ =>
  }

  lemma RegisterKeepsTunnels(s: State, id: nat, device: string, group: string, digest: Digest, declarations: seq<Declaration>)
    ensures Register(s, id, device, group, digest, declarations).tunnels == s.tunnels
  {
  }

  lemma UpdateKeepsTunnels(s: State, id: nat, declarations: seq<Declaration>)
    ensures UpdateServices(s, id, declarations).tunnels == s.tunnels
  {
  }

  lemma CutKeepsTunnels(s: State, id: nat, tunnel: string)
    ensures DisconnectTunnel(s, id, tunnel).tunnels == s.tunnels
  {
  }
}
