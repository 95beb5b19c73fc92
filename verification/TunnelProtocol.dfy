/**
The tunnel runtime under concurrency: the session loops of
crates/gaterust-tunnel/src/server/mod.rs, administrators, the configuration reload and public
connections, interleaved at every point where the source releases its lock or awaits.

A mutator commits under the lock and calls `notify` later. A session loop marks the revision
seen, then reads its catalog, then sends it. A login reads the group keys and registers later.
A credential reload replaces the runtime's digests and rewrites the group keys later.
*/
module TunnelProtocol {
  import opened Options
  import opened TunnelConfigs
  import opened TunnelState

  /** What a catalog is sent as. */
  datatype Reply = Hello | Receipt(request: nat) | Snapshot

  datatype Phase =
    | Subscribed
    | Authenticated(group: string, digest: Digest)
    | Announcing(reply: Reply)
    | Marking(reply: Reply)
    | Reading(reply: Reply)
    | Sending(reply: Reply, tunnels: Catalog)
    | Listening
    | Leaving
    | Gone

  datatype Frame = Frame(reply: Reply, tunnels: Catalog)

  /** One client connection: its server loop, the frames sent to the client in order, and the
      key the client presented. */
  datatype Loop = Loop(phase: Phase, seen: nat, sent: seq<Frame>, key: string)

  datatype Cause = ByTunnelDisconnect | Otherwise

  /**
  `announcements`: committed changes of other tasks whose `notify` is still to come.
  `cutting`: tokens released by `disconnect_tunnel` whose `cancel` is still to come.
  `streams`: the shutdown token each public connection got from `find`.
  `ended`: how the ownership behind each token that is no longer current came to its end.
  */
  datatype System = System(
    state: State,
    revision: nat,
    announcements: nat,
    cutting: set<Token>,
    cancelled: set<Token>,
    groups: seq<(string, string)>,
    reloading: Option<seq<(string, string)>>,
    nextId: nat,
    loops: map<nat, Loop>,
    streams: map<nat, Token>,
    ended: map<Token, Cause>)

  datatype Step =
    | Accept
    | Authenticate(id: nat, key: string)
    | Login(id: nat, device: string, declarations: seq<Declaration>)
    | Update(id: nat, request: nat, declarations: seq<Declaration>)
    | Announce(id: nat)
    | Mark(id: nat)
    | Observe(id: nat)
    | Read(id: nat)
    | Send(id: nat)
    | Break(id: nat)
    | Leave(id: nat)
    | Disconnect(id: nat)
    | Cut(id: nat, tunnel: string)
    | Cancel(token: Token)
    | ReloadTunnels(configs: seq<TunnelConfig>)
    | ReloadCredentials(credentials: seq<(string, string)>)
    | WriteGroups
    | Notify
    | Open(stream: nat, tunnel: string)

  // ---- Steps ----

  function Tokens(state: State): set<Token> {
    set name | name in state.owners :: state.owners[name].shutdown
  }

  function Commit(s: System, state: State, cause: Cause): System {
    s.(state := state,
       ended := s.ended + map token | token in Tokens(s.state) - Tokens(state) :: cause)
  }

  function Move(s: System, id: nat, phase: Phase): System
    requires id in s.loops
  {
    s.(loops := s.loops[id := s.loops[id].(phase := phase)])
  }

  /** The group whose key the client presented, as the group list is read now. */
  function GroupOf(groups: seq<(string, string)>, key: string): Option<string> {
    if groups == [] then None
    else if groups[0].1 == key then Some(groups[0].0)
    else GroupOf(groups[1..], key)
  }

  predicate InPhase(s: System, id: nat, phase: Phase) {
    id in s.loops && s.loops[id].phase == phase
  }

  predicate Possible(s: System, step: Step) {
    match step
    case Accept => true
    case Authenticate(id, _) => InPhase(s, id, Subscribed)
    case Login(id, _, _) => id in s.loops && s.loops[id].phase.Authenticated?
    case Update(id, _, _) => InPhase(s, id, Listening)
    case Announce(id) => id in s.loops && s.loops[id].phase.Announcing?
    case Mark(id) => id in s.loops && s.loops[id].phase.Marking?
    case Observe(id) => InPhase(s, id, Listening) && s.loops[id].seen != s.revision
    case Read(id) => id in s.loops && s.loops[id].phase.Reading?
    case Send(id) => id in s.loops && s.loops[id].phase.Sending?
    case Break(id) => id in s.loops && (s.loops[id].phase.Listening? || s.loops[id].phase.Sending?)
    case Leave(id) => InPhase(s, id, Leaving)
    case Disconnect(id) => id in s.state.sessions
    case Cut(id, tunnel) => DisconnectOutcome(s.state, id, tunnel).Disconnected?
    case Cancel(token) => token in s.cutting
    case ReloadTunnels(_) => true
    case ReloadCredentials(_) => s.reloading.None?
    case WriteGroups => s.reloading.Some?
    case Notify => s.announcements > 0
    case Open(_, tunnel) => Find(s.state, tunnel).Some?
  }

  function DoLogin(s: System, id: nat, device: string, declarations: seq<Declaration>): System
    requires id in s.loops && s.loops[id].phase.Authenticated?
  {
    var phase := s.loops[id].phase;
    if RegisterOutcome(s.state, device, phase.group, phase.digest) == Registered then
      Move(Commit(s, Register(s.state, id, device, phase.group, phase.digest, declarations), Otherwise), id, Announcing(Hello))
    else Move(s, id, Gone)
  }

  function DoUpdate(s: System, id: nat, request: nat, declarations: seq<Declaration>): System
    requires id in s.loops
  {
    var report := UpdateReport(s.state, id, declarations);
    if report.None? then Move(s, id, Leaving)
    else
      Move(Commit(s, UpdateServices(s.state, id, declarations), Otherwise), id,
           if report.value.changed then Announcing(Receipt(request)) else Marking(Receipt(request)))
  }

  /** Removes a session if it is still there; the caller's `notify` is then due. */
  function Evict(s: System, id: nat): System {
    if id in s.state.sessions then
      Commit(s, RemoveSession(s.state, id), Otherwise).(announcements := s.announcements + 1)
    else s
  }

  function DoReloadCredentials(s: System, credentials: seq<(string, string)>): System {
    var digests := CredentialMap(credentials);
    Commit(s, ApplyCredentials(s.state, digests), Otherwise)
      .(announcements := s.announcements + if Revoked(s.state, digests) == {} then 0 else 1,
        reloading := Some(credentials))
  }

  function DoAccept(s: System): System {
    s.(nextId := s.nextId + 1, loops := s.loops[s.nextId := Loop(Subscribed, s.revision, [], "")])
  }

  function DoCut(s: System, id: nat, tunnel: string): System
    requires DisconnectOutcome(s.state, id, tunnel).Disconnected?
  {
    Commit(s, DisconnectTunnel(s.state, id, tunnel), ByTunnelDisconnect)
      .(cutting := s.cutting + {s.state.owners[tunnel].shutdown})
  }

  function DoCancel(s: System, token: Token): System {
    s.(cutting := s.cutting - {token}, cancelled := s.cancelled + {token}, announcements := s.announcements + 1)
  }

  function DoReloadTunnels(s: System, configs: seq<TunnelConfig>): System {
    Commit(s, ApplyTunnels(s.state, configs), Otherwise).(announcements := s.announcements + 1)
  }

  function DoOpen(s: System, stream: nat, tunnel: string): System
    requires Find(s.state, tunnel).Some?
  {
    s.(streams := s.streams[stream := Find(s.state, tunnel).value.shutdown])
  }

  function SeeAndRead(s: System, id: nat, reply: Reply): System
    requires id in s.loops
  {
    s.(loops := s.loops[id := s.loops[id].(seen := s.revision, phase := Reading(reply))])
  }

  function Do(s: System, step: Step): System
    requires Possible(s, step)
  {
    match step
    case Accept => DoAccept(s)
    case Authenticate(id, key) =>
      var group := GroupOf(s.groups, key);
      s.(loops := s.loops[id := s.loops[id].(
          key := key,
          phase := if group.Some? then Authenticated(group.value, Sha256(key)) else Gone)])
    case Login(id, device, declarations) => DoLogin(s, id, device, declarations)
    case Update(id, request, declarations) => DoUpdate(s, id, request, declarations)
    case Announce(id) => Move(s, id, Marking(s.loops[id].phase.reply)).(revision := s.revision + 1)
    case Mark(id) => SeeAndRead(s, id, s.loops[id].phase.reply)
    case Observe(id) => SeeAndRead(s, id, Snapshot)
    case Read(id) => Move(s, id, Sending(s.loops[id].phase.reply, CatalogOf(s.state, id)))
    case Send(id) =>
      var phase := s.loops[id].phase;
      s.(loops := s.loops[id := s.loops[id].(
          phase := Listening, sent := s.loops[id].sent + [Frame(phase.reply, phase.tunnels)])])
    case Break(id) => Move(s, id, Leaving)
    case Leave(id) => Move(Evict(s, id), id, Gone)
    case Disconnect(id) => Evict(s, id)
    case Cut(id, tunnel) => DoCut(s, id, tunnel)
    case Cancel(token) => DoCancel(s, token)
    case ReloadTunnels(configs) => DoReloadTunnels(s, configs)
    case ReloadCredentials(credentials) => DoReloadCredentials(s, credentials)
    case WriteGroups => s.(groups := s.reloading.value, reloading := None)
    case Notify => s.(announcements := s.announcements - 1, revision := s.revision + 1)
    case Open(stream, tunnel) => DoOpen(s, stream, tunnel)
  }

  /** The server as started on a configuration. */
  function Initial(groups: seq<(string, string)>, configs: seq<TunnelConfig>): System {
    var empty := State(CredentialMap(groups), map[], Specs(ByName(configs)), map[], 0);
    System(empty, 0, 0, {}, {}, groups, None, 1, map[], map[], map[])
  }

  /** Any schedule: a step that is not possible where it comes is skipped. */
  function Run(s: System, steps: seq<Step>): System
    decreases steps
  {
    if steps == [] then s
    else if Possible(s, steps[0]) then Run(Do(s, steps[0]), steps[1..])
    else Run(s, steps[1..])
  }

  lemma {:induction false} RunAppend(s: System, steps: seq<Step>, last: Step)
    ensures Run(s, steps + [last]) == var t := Run(s, steps); if Possible(t, last) then Do(t, last) else t
    decreases steps
  {
    if steps == [] {
      assert [last][1..] == [];
    } else {
      assert (steps + [last])[1..] == steps[1..] + [last] && (steps + [last])[0] == steps[0];
      RunAppend(if Possible(s, steps[0]) then Do(s, steps[0]) else s, steps[1..], last);
    }
  }

  // ---- Invariants ----

  /** A change is committed whose revision is still to come. */
  predicate InFlight(announcements: nat, cutting: set<Token>, loops: map<nat, Loop>) {
    announcements > 0 || cutting != {} || exists id <- loops :: loops[id].phase.Announcing?
  }

  predicate SomethingInFlight(s: System) {
    InFlight(s.announcements, s.cutting, s.loops)
  }

  /** A list for `id` is current, or the loop is sure to be woken for a newer one. */
  predicate UpToDate(state: State, revision: nat, inFlight: bool, id: nat, seen: nat, tunnels: Catalog) {
    tunnels == CatalogOf(state, id) || seen < revision || inFlight
  }

  predicate LoopUpToDate(state: State, revision: nat, inFlight: bool, id: nat, loop: Loop) {
    && loop.seen <= revision
    && (loop.phase.Sending? ==> UpToDate(state, revision, inFlight, id, loop.seen, loop.phase.tunnels))
    && (loop.phase.Listening? ==>
          loop.sent != [] && UpToDate(state, revision, inFlight, id, loop.seen, loop.sent[|loop.sent| - 1].tunnels))
  }

  predicate CatalogsUpToDate(state: State, revision: nat, inFlight: bool, loops: map<nat, Loop>) {
    forall id <- loops :: LoopUpToDate(state, revision, inFlight, id, loops[id])
  }

  predicate NotLoggedIn(loop: Loop) {
    loop.phase.Subscribed? || loop.phase.Authenticated?
  }

  /** Sessions belong to loops that logged in with the digest of the key they presented. */
  predicate LoopsValid(sessions: map<nat, Session>, nextId: nat, loops: map<nat, Loop>) {
    && (forall id <- loops :: id < nextId)
    && (forall id <- sessions :: id in loops && !NotLoggedIn(loops[id]) && sessions[id].digest == Sha256(loops[id].key))
    && (forall id <- loops | loops[id].phase.Authenticated? :: loops[id].phase.digest == Sha256(loops[id].key))
  }

  /** Each token is current or ended, and exactly those ended by `disconnect_tunnel` are cut. */
  predicate EpochsValid(state: State, cut: set<Token>, ended: map<Token, Cause>, streams: map<nat, Token>) {
    && (forall token <- Tokens(state) :: token !in ended)
    && (forall token <- ended :: token.serial < state.serial)
    && cut == (set token | token in ended && ended[token] == ByTunnelDisconnect)
    && (forall stream <- streams :: streams[stream] in Tokens(state) || streams[stream] in ended)
  }

  predicate SystemInv(s: System) {
    && Inv(s.state)
    && LoopsValid(s.state.sessions, s.nextId, s.loops)
    && EpochsValid(s.state, s.cancelled + s.cutting, s.ended, s.streams)
    && CatalogsUpToDate(s.state, s.revision, SomethingInFlight(s), s.loops)
  }

  // ---- Epochs ----

  /** A commit that follows the ownership rules moves tokens from current to ended, once. */
  lemma CommitKeepsEpochs(s: System, state: State)
    requires EpochsValid(s.state, s.cancelled + s.cutting, s.ended, s.streams)
    requires TokensValid(s.state) && TokensValid(state)
    requires NothingStolen(s.state, state) && TokensFresh(s.state, state)
    ensures var t := Commit(s, state, Otherwise);
            EpochsValid(t.state, t.cancelled + t.cutting, t.ended, t.streams)
  {
    var t := Commit(s, state, Otherwise);
    forall token | token in Tokens(state) ensures token !in t.ended {
      var name :| name in state.owners && state.owners[name].shutdown == token;
      if name in s.state.owners {
        assert token in Tokens(s.state);
      }
    }
  }

  /** `disconnect_tunnel` ends exactly the epoch it is about to cancel. */
  lemma CutEndsOneEpoch(state: State, id: nat, tunnel: string)
    requires TokensValid(state) && DisconnectOutcome(state, id, tunnel).Disconnected?
    ensures Tokens(DisconnectTunnel(state, id, tunnel)) == Tokens(state) - {state.owners[tunnel].shutdown}
  {
    var t := DisconnectTunnel(state, id, tunnel);
    forall name | name in t.owners ensures state.owners[name].shutdown != state.owners[tunnel].shutdown {}
    forall token | token in Tokens(state) && token != state.owners[tunnel].shutdown ensures token in Tokens(t) {
      var name :| name in state.owners && state.owners[name].shutdown == token;
      assert t.owners[name] == state.owners[name];
    }
  }

  lemma CutKeepsEpochs(s: System, id: nat, tunnel: string)
    requires EpochsValid(s.state, s.cancelled + s.cutting, s.ended, s.streams)
    requires TokensValid(s.state) && Possible(s, Cut(id, tunnel))
    ensures var t := DoCut(s, id, tunnel);
            EpochsValid(t.state, t.cancelled + t.cutting, t.ended, t.streams)
  {
    var token := s.state.owners[tunnel].shutdown;
    CutEndsOneEpoch(s.state, id, tunnel);
    var t := DoCut(s, id, tunnel);
    assert token in Tokens(s.state) && Tokens(s.state) - Tokens(t.state) == {token};
    assert t.cancelled + t.cutting == s.cancelled + s.cutting + {token};
    CutValid(s.state, t.state, s.cancelled + s.cutting, s.ended, s.streams, token);
    assert t.ended == s.ended[token := ByTunnelDisconnect];
  }

  lemma CutValid(state: State, state': State, cut: set<Token>, ended: map<Token, Cause>, streams: map<nat, Token>, token: Token)
    requires EpochsValid(state, cut, ended, streams) && Tokens(state') == Tokens(state) - {token} && token in Tokens(state)
    requires state'.serial == state.serial && token.serial < state.serial
    ensures EpochsValid(state', cut + {token}, ended[token := ByTunnelDisconnect], streams)
  {
  }

  // ---- Catalogs ----

  /** With a revision on its way nobody can miss anything. */
  lemma InFlightCovers(old': State, state: State, revision: nat, inFlight: bool, loops: map<nat, Loop>)
    requires CatalogsUpToDate(old', revision, inFlight, loops)
    ensures CatalogsUpToDate(state, revision, true, loops)
  {
    forall id | id in loops ensures LoopUpToDate(state, revision, true, id, loops[id]) {
      assert LoopUpToDate(old', revision, inFlight, id, loops[id]);
    }
  }

  /** A new revision reaches every loop. */
  lemma RevisionCovers(state: State, revision: nat, inFlight: bool, now: bool, loops: map<nat, Loop>)
    requires CatalogsUpToDate(state, revision, inFlight, loops)
    ensures CatalogsUpToDate(state, revision + 1, now, loops)
  {
    forall id | id in loops ensures LoopUpToDate(state, revision + 1, now, id, loops[id]) {
      assert LoopUpToDate(state, revision, inFlight, id, loops[id]);
    }
  }

  /** A change that shows in no catalog needs no revision. */
  lemma SilenceCovers(old': State, state: State, revision: nat, inFlight: bool, loops: map<nat, Loop>)
    requires CatalogsUpToDate(old', revision, inFlight, loops)
    requires state.sessions == old'.sessions && state.tunnels == old'.tunnels && state.owners == old'.owners
    ensures CatalogsUpToDate(state, revision, inFlight, loops)
  {
    forall id | id in loops ensures LoopUpToDate(state, revision, inFlight, id, loops[id]) {
      assert LoopUpToDate(old', revision, inFlight, id, loops[id]);
      assert CatalogOf(state, id) == CatalogOf(old', id);
    }
  }

  /** One loop moves; what was in flight still is. */
  lemma MoveCovers(s: System, id: nat, loop: Loop)
    requires CatalogsUpToDate(s.state, s.revision, SomethingInFlight(s), s.loops)
    requires loop.phase.Announcing? <==> id in s.loops && s.loops[id].phase.Announcing?
    requires LoopUpToDate(s.state, s.revision, SomethingInFlight(s), id, loop)
    ensures var t := s.(loops := s.loops[id := loop]);
            CatalogsUpToDate(t.state, t.revision, SomethingInFlight(t), t.loops)
  {
    var t := s.(loops := s.loops[id := loop]);
    assert SomethingInFlight(t) == SomethingInFlight(s) by {
      assert forall other | other != id :: other in t.loops <==> other in s.loops;
      assert forall other | other in s.loops && other != id :: t.loops[other] == s.loops[other];
    }
    forall other | other in t.loops ensures LoopUpToDate(t.state, t.revision, SomethingInFlight(t), other, t.loops[other]) {
      if other != id {
        assert LoopUpToDate(s.state, s.revision, SomethingInFlight(s), other, s.loops[other]);
      }
    }
  }

  // ---- Every step keeps the invariant ----

  /** A commit with a revision on its way keeps everything about the other loops. */
  lemma CommitKeeps(s: System, state: State)
    requires SystemInv(s) && Follows(s.state, state)
    ensures var t := Commit(s, state, Otherwise);
            && EpochsValid(t.state, t.cancelled + t.cutting, t.ended, t.streams)
            && CatalogsUpToDate(state, s.revision, true, s.loops)
            && (SessionsKept(s.state, state) ==> LoopsValid(state.sessions, s.nextId, s.loops))
  {
    CommitKeepsEpochs(s, state);
    InFlightCovers(s.state, state, s.revision, SomethingInFlight(s), s.loops);
    if SessionsKept(s.state, state) {
      SessionsKeptLoopsValid(s.state, state, s.nextId, s.loops);
    }
  }

  lemma SessionsKeptLoopsValid(old': State, state: State, nextId: nat, loops: map<nat, Loop>)
    requires LoopsValid(old'.sessions, nextId, loops) && SessionsKept(old', state)
    ensures LoopsValid(state.sessions, nextId, loops)
  {
  }

  lemma LoopMovesValid(sessions: map<nat, Session>, nextId: nat, loops: map<nat, Loop>, id: nat, loop: Loop)
    requires LoopsValid(sessions, nextId, loops) && id in loops && !NotLoggedIn(loop) && loop.key == loops[id].key
    ensures LoopsValid(sessions, nextId, loops[id := loop])
  {
  }

  lemma LoopJoinsValid(sessions: map<nat, Session>, nextId: nat, loops: map<nat, Loop>, id: nat, session: Session)
    requires LoopsValid(sessions, nextId, loops) && id in loops && !NotLoggedIn(loops[id])
    requires session.digest == Sha256(loops[id].key)
    ensures LoopsValid(sessions[id := session], nextId, loops)
  {
  }

  /** A loop commits a change and is about to announce it. */
  lemma CommitAndAnnounceKeeps(s: System, state: State, id: nat, reply: Reply)
    requires SystemInv(s) && id in s.loops && Follows(s.state, state)
    requires LoopsValid(state.sessions, s.nextId, s.loops[id := s.loops[id].(phase := Announcing(reply))])
    ensures SystemInv(Move(Commit(s, state, Otherwise), id, Announcing(reply)))
  {
    CommitKeeps(s, state);
    var t := Move(Commit(s, state, Otherwise), id, Announcing(reply));
    assert t.loops[id].phase.Announcing?;
    assert LoopUpToDate(s.state, s.revision, SomethingInFlight(s), id, s.loops[id]);
  }

  lemma LoginKeeps(s: System, id: nat, device: string, declarations: seq<Declaration>)
    requires SystemInv(s) && id in s.loops && s.loops[id].phase.Authenticated?
    ensures SystemInv(DoLogin(s, id, device, declarations))
  {
    var phase := s.loops[id].phase;
    var state := Register(s.state, id, device, phase.group, phase.digest, declarations);
    assert id !in s.state.sessions;
    if RegisterOutcome(s.state, device, phase.group, phase.digest) == Registered {
      RegisterKeeps(s.state, id, device, phase.group, phase.digest, declarations);
      LoopMovesValid(s.state.sessions, s.nextId, s.loops, id, s.loops[id].(phase := Announcing(Hello)));
      LoopJoinsValid(s.state.sessions, s.nextId, s.loops[id := s.loops[id].(phase := Announcing(Hello))], id,
                     Session(device, phase.group, phase.digest, ServiceMap(declarations)));
      CommitAndAnnounceKeeps(s, state, id, Hello);
    } else {
      assert LoopUpToDate(s.state, s.revision, SomethingInFlight(s), id, s.loops[id]);
      LoopMoveKeeps(s, id, s.loops[id].(phase := Gone));
    }
  }

  lemma UpdateKeeps(s: System, id: nat, request: nat, declarations: seq<Declaration>)
    requires SystemInv(s) && InPhase(s, id, Listening)
    ensures SystemInv(DoUpdate(s, id, request, declarations))
  {
    var report := UpdateReport(s.state, id, declarations);
    if report.None? {
      LoopMoveKeeps(s, id, s.loops[id].(phase := Leaving));
    } else if report.value.changed {
      AnnouncedUpdateKeeps(s, id, request, declarations);
    } else {
      SilentUpdateKeeps(s, id, request, declarations);
    }
  }

  lemma AnnouncedUpdateKeeps(s: System, id: nat, request: nat, declarations: seq<Declaration>)
    requires SystemInv(s) && InPhase(s, id, Listening)
    ensures SystemInv(Move(Commit(s, UpdateServices(s.state, id, declarations), Otherwise), id, Announcing(Receipt(request))))
  {
    var state := UpdateServices(s.state, id, declarations);
    UpdateServicesKeeps(s.state, id, declarations);
    SessionsKeptLoopsValid(s.state, state, s.nextId, s.loops);
    LoopMovesValid(state.sessions, s.nextId, s.loops, id, s.loops[id].(phase := Announcing(Receipt(request))));
    CommitAndAnnounceKeeps(s, state, id, Receipt(request));
  }

  lemma SilentUpdateKeeps(s: System, id: nat, request: nat, declarations: seq<Declaration>)
    requires SystemInv(s) && InPhase(s, id, Listening)
    requires UpdateReport(s.state, id, declarations).Some? && !UpdateReport(s.state, id, declarations).value.changed
    ensures SystemInv(Move(Commit(s, UpdateServices(s.state, id, declarations), Otherwise), id, Marking(Receipt(request))))
  {
    var t := Commit(s, UpdateServices(s.state, id, declarations), Otherwise);
    SilentCommitKeeps(s, id, declarations);
    assert LoopUpToDate(t.state, t.revision, SomethingInFlight(t), id, t.loops[id]);
    LoopMoveKeeps(t, id, t.loops[id].(phase := Marking(Receipt(request))));
  }

  lemma SilentCommitKeeps(s: System, id: nat, declarations: seq<Declaration>)
    requires SystemInv(s)
    requires UpdateReport(s.state, id, declarations).Some? && !UpdateReport(s.state, id, declarations).value.changed
    ensures SystemInv(Commit(s, UpdateServices(s.state, id, declarations), Otherwise))
  {
    var state := UpdateServices(s.state, id, declarations);
    UpdateServicesKeeps(s.state, id, declarations);
    CommitKeeps(s, state);
    SilentUpdateIsSilent(s.state, id, declarations);
    SilenceCovers(s.state, state, s.revision, SomethingInFlight(s), s.loops);
  }

  lemma EvictKeeps(s: System, id: nat)
    requires SystemInv(s)
    ensures SystemInv(Evict(s, id))
  {
    if id in s.state.sessions {
      RemoveSessionKeeps(s.state, id);
      CommitKeeps(s, RemoveSession(s.state, id));
    }
  }

  /** `disconnect_tunnel`: released under the lock, then cancelled, then announced. */
  lemma CutKeeps(s: System, id: nat, tunnel: string)
    requires SystemInv(s) && Possible(s, Cut(id, tunnel))
    ensures SystemInv(DoCut(s, id, tunnel))
  {
    var t := DoCut(s, id, tunnel);
    DisconnectTunnelKeeps(s.state, id, tunnel);
    CommitKeeps(s, t.state);
    CutKeepsEpochs(s, id, tunnel);
    assert s.state.owners[tunnel].shutdown in t.cutting;
  }

  lemma CancelKeeps(s: System, token: Token)
    requires SystemInv(s) && token in s.cutting
    ensures SystemInv(DoCancel(s, token))
  {
    var t := DoCancel(s, token);
    assert t.cancelled + t.cutting == s.cancelled + s.cutting;
    InFlightCovers(s.state, s.state, s.revision, SomethingInFlight(s), s.loops);
  }

  lemma ReloadTunnelsKeeps(s: System, configs: seq<TunnelConfig>)
    requires SystemInv(s)
    ensures SystemInv(DoReloadTunnels(s, configs))
  {
    ApplyTunnelsKeeps(s.state, configs);
    CommitKeeps(s, ApplyTunnels(s.state, configs));
  }

  lemma ReloadCredentialsKeeps(s: System, credentials: seq<(string, string)>)
    requires SystemInv(s)
    ensures SystemInv(DoReloadCredentials(s, credentials))
  {
    var digests := CredentialMap(credentials);
    var state := ApplyCredentials(s.state, digests);
    ApplyCredentialsKeeps(s.state, digests);
    CommitKeeps(s, state);
    if Revoked(s.state, digests) == {} {
      UnrevokedReloadIsSilent(s.state, digests);
      SilenceCovers(s.state, state, s.revision, SomethingInFlight(s), s.loops);
    }
  }

  /** A loop moves on without touching anything shared. */
  lemma LoopMoveKeeps(s: System, id: nat, loop: Loop)
    requires SystemInv(s) && id in s.loops
    requires LoopUpToDate(s.state, s.revision, SomethingInFlight(s), id, loop)
    requires loop.phase.Announcing? <==> s.loops[id].phase.Announcing?
    requires NotLoggedIn(loop) ==> id !in s.state.sessions
    requires loop.phase.Authenticated? ==> loop.phase.digest == Sha256(loop.key)
    requires loop.key == s.loops[id].key || id !in s.state.sessions
    ensures SystemInv(s.(loops := s.loops[id := loop]))
  {
    MoveCovers(s, id, loop);
    MovedLoopValid(s.state.sessions, s.nextId, s.loops, id, loop);
  }

  lemma MovedLoopValid(sessions: map<nat, Session>, nextId: nat, loops: map<nat, Loop>, id: nat, loop: Loop)
    requires LoopsValid(sessions, nextId, loops) && id in loops
    requires NotLoggedIn(loop) ==> id !in sessions
    requires loop.phase.Authenticated? ==> loop.phase.digest == Sha256(loop.key)
    requires loop.key == loops[id].key || id !in sessions
    ensures LoopsValid(sessions, nextId, loops[id := loop])
  {
  }

  lemma LeaveKeeps(s: System, id: nat)
    requires SystemInv(s) && InPhase(s, id, Leaving)
    ensures SystemInv(Move(Evict(s, id), id, Gone))
  {
    EvictKeeps(s, id);
    assert LoopUpToDate(Evict(s, id).state, s.revision, SomethingInFlight(Evict(s, id)), id, s.loops[id]);
    LoopMoveKeeps(Evict(s, id), id, s.loops[id].(phase := Gone));
  }

  lemma AcceptKeeps(s: System)
    requires SystemInv(s)
    ensures SystemInv(DoAccept(s))
  {
    assert s.nextId !in s.loops;
    var loop := Loop(Subscribed, s.revision, [], "");
    MoveCovers(s, s.nextId, loop);
    assert SomethingInFlight(DoAccept(s)) == SomethingInFlight(s.(loops := s.loops[s.nextId := loop]));
    AcceptedLoopValid(s.state.sessions, s.nextId, s.loops, loop);
  }

  lemma AcceptedLoopValid(sessions: map<nat, Session>, nextId: nat, loops: map<nat, Loop>, loop: Loop)
    requires LoopsValid(sessions, nextId, loops) && loop.phase.Subscribed?
    ensures LoopsValid(sessions, nextId + 1, loops[nextId := loop])
  {
  }

  /** `notify`, by a loop about its own change or by another task. */
  lemma NotifyKeeps(s: System, t: System, id: nat)
    requires SystemInv(s) && t.revision == s.revision + 1
    requires t.state == s.state && t.nextId == s.nextId && t.cancelled == s.cancelled && t.cutting == s.cutting
    requires t.ended == s.ended && t.streams == s.streams
    requires t.loops == s.loops
          || (id in s.loops && s.loops[id].phase.Announcing?
              && t.loops == s.loops[id := s.loops[id].(phase := Marking(s.loops[id].phase.reply))])
    ensures SystemInv(t)
  {
    RevisionCovers(s.state, s.revision, SomethingInFlight(s), SomethingInFlight(t), s.loops);
  }

  lemma OpenKeeps(s: System, stream: nat, tunnel: string)
    requires SystemInv(s) && Find(s.state, tunnel).Some?
    ensures SystemInv(DoOpen(s, stream, tunnel))
  {
    OpenKeepsEpochs(s, stream, tunnel);
  }

  lemma OpenKeepsEpochs(s: System, stream: nat, tunnel: string)
    requires EpochsValid(s.state, s.cancelled + s.cutting, s.ended, s.streams) && Find(s.state, tunnel).Some?
    ensures var t := DoOpen(s, stream, tunnel); EpochsValid(t.state, t.cancelled + t.cutting, t.ended, t.streams)
  {
    assert s.state.owners[tunnel].shutdown in Tokens(s.state);
  }

  lemma StepKeeps(s: System, step: Step)
    requires SystemInv(s) && Possible(s, step)
    ensures SystemInv(Do(s, step))
  {
    if Commits(step) {
      CommitStepKeeps(s, step);
    } else if step.Mark? || step.Observe? || step.Read? || step.Send? || step.Break? {
      LoopStepKeeps(s, step);
    } else {
      OtherStepKeeps(s, step);
    }
  }

  /** The step changes the state behind the lock. */
  predicate Commits(step: Step) {
    || step.Login? || step.Update? || step.Leave? || step.Disconnect?
    || step.Cut? || step.ReloadTunnels? || step.ReloadCredentials?
  }

  lemma CommitStepKeeps(s: System, step: Step)
    requires SystemInv(s) && Possible(s, step) && Commits(step)
    ensures SystemInv(Do(s, step))
  {
    match step
    case Login(id, device, declarations) => LoginKeeps(s, id, device, declarations);
    case Update(id, request, declarations) => UpdateKeeps(s, id, request, declarations);
    case Disconnect(id) => EvictKeeps(s, id);
    case Leave(id) => LeaveKeeps(s, id);
    case Cut(id, tunnel) => CutKeeps(s, id, tunnel);
    case ReloadTunnels(configs) => ReloadTunnelsKeeps(s, configs);
    case ReloadCredentials(credentials) => ReloadCredentialsKeeps(s, credentials);
  }

  lemma OtherStepKeeps(s: System, step: Step)
    requires SystemInv(s) && Possible(s, step)
    requires step.Accept? || step.Authenticate? || step.Announce? || step.Cancel? || step.WriteGroups? || step.Notify? || step.Open?
    ensures SystemInv(Do(s, step))
  {
    match step
    case Accept => AcceptKeeps(s);
    case Authenticate(id, key) => AuthenticateKeeps(s, id, key);
    case Announce(id) => NotifyKeeps(s, Do(s, step), id);
    case Cancel(token) => CancelKeeps(s, token);
    case WriteGroups =>
    case Notify => NotifyKeeps(s, Do(s, step), 0);
    case Open(stream, tunnel) => OpenKeeps(s, stream, tunnel);
  }

  lemma AuthenticateKeeps(s: System, id: nat, key: string)
    requires SystemInv(s) && InPhase(s, id, Subscribed)
    ensures SystemInv(Do(s, Authenticate(id, key)))
  {
    assert LoopUpToDate(s.state, s.revision, SomethingInFlight(s), id, s.loops[id]);
    LoopMoveKeeps(s, id, Do(s, Authenticate(id, key)).loops[id]);
  }

  lemma LoopStepKeeps(s: System, step: Step)
    requires SystemInv(s) && Possible(s, step)
    requires step.Mark? || step.Observe? || step.Read? || step.Send? || step.Break?
    ensures SystemInv(Do(s, step))
  {
    assert LoopUpToDate(s.state, s.revision, SomethingInFlight(s), step.id, s.loops[step.id]);
    if step.Mark? || step.Observe? || step.Break? {
      var loop := s.loops[step.id];
      LoopMoveKeeps(s, step.id,
                    match step
                    case Mark(_) => loop.(seen := s.revision, phase := Reading(loop.phase.reply))
                    case Observe(_) => loop.(seen := s.revision, phase := Reading(Snapshot))
                    case Break(_) => loop.(phase := Leaving));
    } else if step.Read? {
      ReadKeeps(s, step.id);
    } else {
      SendKeeps(s, step.id);
    }
  }

  lemma ReadKeeps(s: System, id: nat)
    requires SystemInv(s) && Possible(s, Read(id))
    ensures SystemInv(Do(s, Read(id)))
  {
    var loop := s.loops[id];
    assert LoopUpToDate(s.state, s.revision, SomethingInFlight(s), id, loop);
    LoopMoveKeeps(s, id, loop.(phase := Sending(loop.phase.reply, CatalogOf(s.state, id))));
  }

  lemma SendKeeps(s: System, id: nat)
    requires SystemInv(s) && Possible(s, Send(id))
    ensures SystemInv(Do(s, Send(id)))
  {
    var loop := s.loops[id];
    assert LoopUpToDate(s.state, s.revision, SomethingInFlight(s), id, loop);
    LoopMoveKeeps(s, id, loop.(phase := Listening, sent := loop.sent + [Frame(loop.phase.reply, loop.phase.tunnels)]));
  }

  lemma {:induction false} RunKeeps(s: System, steps: seq<Step>)
    requires SystemInv(s)
    ensures SystemInv(Run(s, steps))
    decreases steps
  {
    if steps != [] {
      if Possible(s, steps[0]) {
        StepKeeps(s, steps[0]);
        RunKeeps(Do(s, steps[0]), steps[1..]);
      } else {
        RunKeeps(s, steps[1..]);
      }
    }
  }

  lemma InitialValid(groups: seq<(string, string)>, configs: seq<TunnelConfig>)
    ensures SystemInv(Initial(groups, configs))
  {
  }

  // ---- What holds in every run ----

  /** No lost catalog update: in every interleaving, the last list a listening loop sent is its
      current catalog, or its revision is behind, or a revision is still to come. */
  lemma NoLostUpdate(groups: seq<(string, string)>, configs: seq<TunnelConfig>, steps: seq<Step>, id: nat)
    requires InPhase(Run(Initial(groups, configs), steps), id, Listening)
    ensures var s := Run(Initial(groups, configs), steps);
            var loop := s.loops[id];
            && loop.sent != []
            && (|| loop.sent[|loop.sent| - 1].tunnels == CatalogOf(s.state, id)
                || loop.seen < s.revision
                || SomethingInFlight(s))
  {
    InitialValid(groups, configs);
    RunKeeps(Initial(groups, configs), steps);
    var s := Run(Initial(groups, configs), steps);
    assert LoopUpToDate(s.state, s.revision, SomethingInFlight(s), id, s.loops[id]);
  }

  /** A loop that is behind catches up by itself: once nothing is in flight, three steps of its
      own make the last frame its client gets the current catalog. */
  lemma CatchesUp(groups: seq<(string, string)>, configs: seq<TunnelConfig>, steps: seq<Step>, id: nat)
    requires var s := Run(Initial(groups, configs), steps);
             InPhase(s, id, Listening) && !SomethingInFlight(s)
    ensures var s := Run(Initial(groups, configs), steps);
            var t := Run(s, [Observe(id), Read(id), Send(id)]);
            && t.state == s.state && InPhase(t, id, Listening) && t.loops[id].sent != []
            && t.loops[id].sent[|t.loops[id].sent| - 1].tunnels == CatalogOf(t.state, id)
  {
    NoLostUpdate(groups, configs, steps, id);
    var s := Run(Initial(groups, configs), steps);
    if s.loops[id].seen != s.revision {
      CatchUpRuns(s, id);
    } else {
      StaysCaughtUp(s, id);
    }
  }

  lemma CatchUpRuns(s: System, id: nat)
    requires InPhase(s, id, Listening) && s.loops[id].seen != s.revision
    ensures var t := Run(s, [Observe(id), Read(id), Send(id)]);
            && t.state == s.state && InPhase(t, id, Listening) && t.loops[id].sent != []
            && t.loops[id].sent[|t.loops[id].sent| - 1].tunnels == CatalogOf(t.state, id)
  {
    var a := Do(s, Observe(id));
    var b := Do(a, Read(id));
    var c := Do(b, Send(id));
    assert [Observe(id), Read(id), Send(id)][1..] == [Read(id), Send(id)];
    assert [Read(id), Send(id)][1..] == [Send(id)];
    assert Run(c, []) == c;
    assert Run(b, [Send(id)]) == c;
    assert Run(a, [Read(id), Send(id)]) == c;
  }

  lemma StaysCaughtUp(s: System, id: nat)
    requires InPhase(s, id, Listening) && s.loops[id].seen == s.revision
    ensures Run(s, [Observe(id), Read(id), Send(id)]) == s
  {
    assert [Observe(id), Read(id), Send(id)][1..] == [Read(id), Send(id)];
    assert [Read(id), Send(id)][1..] == [Send(id)];
    assert Run(s, []) == s;
    assert Run(s, [Send(id)]) == s;
    assert Run(s, [Read(id), Send(id)]) == s;
  }

  /** The ownership invariant, in every reachable state. */
  lemma OwnershipHolds(groups: seq<(string, string)>, configs: seq<TunnelConfig>, steps: seq<Step>)
    ensures Inv(Run(Initial(groups, configs), steps).state)
  {
    InitialValid(groups, configs);
    RunKeeps(Initial(groups, configs), steps);
  }

  /** No step of any run moves a tunnel from one owner to another, or renews its token. */
  lemma NoStepSteals(groups: seq<(string, string)>, configs: seq<TunnelConfig>, steps: seq<Step>, step: Step)
    requires Possible(Run(Initial(groups, configs), steps), step)
    ensures var s := Run(Initial(groups, configs), steps);
            NothingStolen(s.state, Do(s, step).state)
  {
    InitialValid(groups, configs);
    RunKeeps(Initial(groups, configs), steps);
    StepStealsNothing(Run(Initial(groups, configs), steps), step);
  }

  lemma StepStealsNothing(s: System, step: Step)
    requires Inv(s.state) && Possible(s, step)
    requires step.Login? ==> step.id !in s.state.sessions
    ensures NothingStolen(s.state, Do(s, step).state)
  {
    if !Commits(step) {
      OthersKeepState(s, step);
    } else if step.Login? || step.Update? {
      ClaimsStealNothing(s, step);
    } else {
      RemovalsStealNothing(s, step);
    }
  }

  lemma RemovalsStealNothing(s: System, step: Step)
    requires Inv(s.state) && Possible(s, step) && Commits(step) && !step.Login? && !step.Update?
    ensures NothingStolen(s.state, Do(s, step).state)
  {
    match step
    case Leave(id) => RemoveSessionKeeps(s.state, id);
    case Disconnect(id) => RemoveSessionKeeps(s.state, id);
    case Cut(id, tunnel) => DisconnectTunnelKeeps(s.state, id, tunnel);
    case ReloadTunnels(configs) => ApplyTunnelsKeeps(s.state, configs);
    case ReloadCredentials(credentials) => ApplyCredentialsKeeps(s.state, CredentialMap(credentials));
  }

  lemma ClaimsStealNothing(s: System, step: Step)
    requires Inv(s.state) && Possible(s, step) && (step.Login? || step.Update?)
    requires step.Login? ==> step.id !in s.state.sessions
    ensures NothingStolen(s.state, Do(s, step).state)
  {
    if step.Update? {
      UpdateServicesKeeps(s.state, step.id, step.declarations);
    } else {
      var phase := s.loops[step.id].phase;
      RegisterKeeps(s.state, step.id, step.device, phase.group, phase.digest, step.declarations);
    }
  }

  lemma OthersKeepState(s: System, step: Step)
    requires Possible(s, step) && !Commits(step)
    ensures Do(s, step).state == s.state
  {
  }

  /** Credential safety: whoever is online presented the key its group has now, no matter how
      logins and reloads interleaved. */
  lemma KeysCurrent(groups: seq<(string, string)>, configs: seq<TunnelConfig>, steps: seq<Step>, id: nat)
    requires id in Run(Initial(groups, configs), steps).state.sessions
    ensures var s := Run(Initial(groups, configs), steps);
            && id in s.loops
            && Get(s.state.credentials, s.state.sessions[id].group) == Some(Sha256(s.loops[id].key))
  {
    InitialValid(groups, configs);
    RunKeeps(Initial(groups, configs), steps);
  }

  /** A current owner's token is never cancelled. */
  lemma OwnersNeverCut(groups: seq<(string, string)>, configs: seq<TunnelConfig>, steps: seq<Step>, tunnel: string)
    requires tunnel in Run(Initial(groups, configs), steps).state.owners
    ensures var s := Run(Initial(groups, configs), steps);
            s.state.owners[tunnel].shutdown !in s.cancelled + s.cutting
  {
    InitialValid(groups, configs);
    RunKeeps(Initial(groups, configs), steps);
    var s := Run(Initial(groups, configs), steps);
    assert s.state.owners[tunnel].shutdown in Tokens(s.state);
  }

  /** A public connection is cut exactly when the ownership it got from `find` was ended by
      `disconnect_tunnel`; ownership ended by a reload or an undeclaration leaves it alone. */
  lemma StreamsCutExactly(groups: seq<(string, string)>, configs: seq<TunnelConfig>, steps: seq<Step>, stream: nat)
    requires stream in Run(Initial(groups, configs), steps).streams
    ensures var s := Run(Initial(groups, configs), steps);
            var token := s.streams[stream];
            && (token in Tokens(s.state) <==> token !in s.ended)
            && (token in s.cancelled || token in s.cutting <==> token in s.ended && s.ended[token] == ByTunnelDisconnect)
  {
    InitialValid(groups, configs);
    RunKeeps(Initial(groups, configs), steps);
    var s := Run(Initial(groups, configs), steps);
    assert s.streams[stream] in s.cancelled + s.cutting <==> s.streams[stream] in s.cancelled || s.streams[stream] in s.cutting;
  }
}
