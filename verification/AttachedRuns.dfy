/**
Two joint runs of server and client (see `AttachedClient`) that show what the client's handling of
catalogs does not give.
*/
module AttachedRuns {
  import opened Options
  import opened TunnelConfigs
  import opened AttachedClient
  import T = TunnelState
  import P = TunnelProtocol
  import C = ClientSession

  // ---- Putting runs together ----

  lemma {:induction false} Concat(j: Joint, a: seq<Step>, b: seq<Step>)
    ensures Run(j, a + b) == Run(Run(j, a), b)
  {
    if b == [] {
      assert a + b == a;
    } else {
      assert (a + b)[..|a + b| - 1] == a + b[..|b| - 1];
      Concat(j, a, b[..|b| - 1]);
    }
  }

  lemma Then(j: Joint, steps: seq<Step>, k: Joint, step: Step)
    requires Run(j, steps) == k && Possible(k, step)
    ensures Run(j, steps + [step]) == Do(k, step)
  {
    assert (steps + [step])[..|steps|] == steps;
  }

  lemma One(j: Joint, step: Step)
    requires Possible(j, step)
    ensures Run(j, [step]) == Do(j, step)
  {
    assert [step][..0] == [];
  }

  /** Nothing is in flight apart from what loop `id` is about to announce. */
  predicate Still(s: P.System, id: nat) {
    && s.announcements == 0 && s.cutting == {}
    && (forall other <- s.loops | other != id :: !s.loops[other].phase.Announcing?)
    && (forall other <- s.loops :: other < s.nextId)
  }

  predicate SameElse(s: P.System, t: P.System, id: nat) {
    && t.announcements == s.announcements && t.cutting == s.cutting && t.groups == s.groups && t.nextId == s.nextId
    && t.loops.Keys == s.loops.Keys && (forall other <- s.loops | other != id :: t.loops[other] == s.loops[other])
  }

  function EchoFor(reply: P.Reply, tunnels: T.Catalog): C.Step {
    match reply
    case Hello => C.Connect
    case Receipt(_) => C.ServerReply(tunnels)
    case Snapshot => C.ServerSnapshot(tunnels)
  }

  /** Loop `id` has sent its catalog, listens and has seen the newest revision. */
  predicate Sent(j: Joint, k: Joint, id: nat, reply: P.Reply) {
    && id in j.server.loops && id in k.server.loops
    && SameElse(j.server, k.server, id) && k.server.state == j.server.state && k.link == j.link
    && var loop, catalog := k.server.loops[id], T.CatalogOf(j.server.state, id);
       && loop.phase == P.Listening && loop.seen == k.server.revision
       && loop.sent == j.server.loops[id].sent + [P.Frame(reply, catalog)]
       && k.client == Follow(j.client, Some(EchoFor(reply, catalog)))
  }

  /** A loop that has marked the newest revision as seen reads and sends its catalog. */
  lemma ReadAndSend(j: Joint, id: nat, reply: P.Reply) returns (steps: seq<Step>)
    requires j.link == Some(id) && id in j.server.loops && j.server.loops[id].phase == P.Reading(reply)
    requires j.server.loops[id].seen == j.server.revision
    ensures Sent(j, Run(j, steps), id, reply)
  {
    var a := AtServer(P.Read(id));
    Then(j, [], j, a);
    var j1 := Do(j, a);
    var b := AtServer(P.Send(id));
    assert j1.server.loops[id].phase == P.Sending(reply, T.CatalogOf(j.server.state, id));
    Then(j, [a], j1, b);
    steps := [a] + [b];
    assert [] + [a] == [a];
  }

  /** Loop `id` has announced its change and marked it as seen; the client has noticed nothing. */
  predicate Marked(j: Joint, k: Joint, id: nat, reply: P.Reply) {
    && id in j.server.loops && id in k.server.loops
    && SameElse(j.server, k.server, id) && k.server.state == j.server.state && k.link == j.link && k.client == j.client
    && k.server.loops[id].phase == P.Reading(reply) && k.server.loops[id].seen == k.server.revision
    && k.server.loops[id].sent == j.server.loops[id].sent
  }

  /** The loop changes and nothing else, except perhaps the revision. */
  function WithLoop(j: Joint, id: nat, loop: P.Loop, revision: nat): Joint {
    j.(server := j.server.(loops := j.server.loops[id := loop], revision := revision))
  }

  lemma AnnounceStep(j: Joint, id: nat, reply: P.Reply)
    requires id in j.server.loops && j.server.loops[id].phase == P.Announcing(reply)
    ensures Possible(j, AtServer(P.Announce(id)))
    ensures Do(j, AtServer(P.Announce(id)))
         == WithLoop(j, id, j.server.loops[id].(phase := P.Marking(reply)), j.server.revision + 1)
  {
  }

  lemma MarkStep(j: Joint, id: nat, reply: P.Reply)
    requires id in j.server.loops && j.server.loops[id].phase == P.Marking(reply)
    ensures Possible(j, AtServer(P.Mark(id)))
    ensures Do(j, AtServer(P.Mark(id)))
         == WithLoop(j, id, j.server.loops[id].(phase := P.Reading(reply), seen := j.server.revision), j.server.revision)
  {
  }

  lemma AnnounceAndMark(j: Joint, id: nat, reply: P.Reply) returns (steps: seq<Step>)
    requires j.link == Some(id) && id in j.server.loops && j.server.loops[id].phase == P.Announcing(reply)
    ensures Marked(j, Run(j, steps), id, reply)
  {
    var a, b := AtServer(P.Announce(id)), AtServer(P.Mark(id));
    AnnounceStep(j, id, reply);
    Then(j, [], j, a);
    assert [] + [a] == [a];
    var k := WithLoop(j, id, j.server.loops[id].(phase := P.Marking(reply)), j.server.revision + 1);
    MarkStep(k, id, reply);
    Then(j, [a], k, b);
    steps := [a] + [b];
  }

  lemma SentAfterMarked(j: Joint, k: Joint, l: Joint, id: nat, reply: P.Reply)
    requires Marked(j, k, id, reply) && Sent(k, l, id, reply)
    ensures Sent(j, l, id, reply)
  {
  }

  /** A loop that has something to announce announces it, marks it as seen, reads and sends. */
  lemma Answer(j: Joint, id: nat, reply: P.Reply) returns (steps: seq<Step>)
    requires j.link == Some(id) && id in j.server.loops && j.server.loops[id].phase == P.Announcing(reply)
    ensures Sent(j, Run(j, steps), id, reply)
  {
    var first := AnnounceAndMark(j, id, reply);
    var k := Run(j, first);
    var rest := ReadAndSend(k, id, reply);
    SentAfterMarked(j, k, Run(k, rest), id, reply);
    Concat(j, first, rest);
    steps := first + rest;
  }

  // ---- Logging in ----

  /** The client is offline and its key is that of `group`. */
  predicate CanLogIn(j: Joint, device: string, group: string) {
    && j.link.None? && !j.client.online && Still(j.server, j.server.nextId)
    && P.GroupOf(j.server.groups, j.client.client.config.key) == Some(group)
    && T.RegisterOutcome(j.server.state, device, group, T.Sha256(j.client.client.config.key)) == T.Registered
  }

  function LoginState(j: Joint, device: string, group: string): T.State {
    T.Register(j.server.state, j.server.nextId, device, group, T.Sha256(j.client.client.config.key),
               Declarations(j.client.client.config.services))
  }

  predicate Joined(j: Joint, k: Joint, device: string, group: string) {
    var id := j.server.nextId;
    && k.link == Some(id) && k.client == j.client && k.server.state == LoginState(j, device, group)
    && k.server.announcements == j.server.announcements && k.server.cutting == j.server.cutting
    && k.server.groups == j.server.groups && k.server.nextId == id + 1
    && id in k.server.loops && k.server.loops[id].phase == P.Announcing(P.Hello) && k.server.loops[id].sent == []
    && k.server.loops.Keys == j.server.loops.Keys + {id}
    && (forall other <- j.server.loops | other != id :: k.server.loops[other] == j.server.loops[other])
  }

  /** The loop `id` was accepted for this client and knows its group. */
  predicate Recognised(j: Joint, k: Joint, group: string) {
    var id, key := j.server.nextId, j.client.client.config.key;
    && k.link == Some(id) && k.client == j.client
    && k.server == j.server.(nextId := id + 1,
                             loops := j.server.loops[id := P.Loop(P.Authenticated(group, T.Sha256(key)), j.server.revision, [], key)])
  }

  lemma Recognise(j: Joint, device: string, group: string) returns (steps: seq<Step>)
    requires CanLogIn(j, device, group)
    ensures Recognised(j, Run(j, steps), group)
  {
    var id, key := j.server.nextId, j.client.client.config.key;
    var b := AtServer(P.Authenticate(id, key));
    Then(j, [], j, Dial);
    assert [] + [Dial] == [Dial];
    var j1 := Do(j, Dial);
    assert P.Possible(j1.server, P.Authenticate(id, key));
    Then(j, [Dial], j1, b);
    steps := [Dial] + [b];
  }

  lemma LoginRegisters(s: P.System, id: nat, device: string, declarations: seq<T.Declaration>)
    requires id in s.loops && s.loops[id].phase.Authenticated?
    requires T.RegisterOutcome(s.state, device, s.loops[id].phase.group, s.loops[id].phase.digest) == T.Registered
    ensures var t := P.Do(s, P.Login(id, device, declarations));
            && SameElse(s, t, id)
            && t.state == T.Register(s.state, id, device, s.loops[id].phase.group, s.loops[id].phase.digest, declarations)
            && id in t.loops && t.loops[id].phase == P.Announcing(P.Hello) && t.loops[id].sent == s.loops[id].sent
  {
  }

  lemma LoginStep(j: Joint, k: Joint, device: string, group: string)
    requires CanLogIn(j, device, group) && Recognised(j, k, group)
    ensures var step := AtServer(P.Login(j.server.nextId, device, Declarations(j.client.client.config.services)));
            Possible(k, step) && Joined(j, Do(k, step), device, group)
  {
    LoginRegisters(k.server, j.server.nextId, device, Declarations(j.client.client.config.services));
  }

  lemma DialIn(j: Joint, device: string, group: string) returns (steps: seq<Step>)
    requires CanLogIn(j, device, group)
    ensures Joined(j, Run(j, steps), device, group)
  {
    var first := Recognise(j, device, group);
    var k := Run(j, first);
    var step := AtServer(P.Login(j.server.nextId, device, Declarations(j.client.client.config.services)));
    LoginStep(j, k, device, group);
    Then(j, first, k, step);
    steps := first + [step];
  }

  /** The client is online, only the hello was sent and read, and nothing more is to be said. */
  predicate Welcomed(j: Joint, k: Joint, device: string, group: string) {
    var id := j.server.nextId;
    && AtRest(k) && k.link == Some(id) && Still(k.server, k.server.nextId)
    && k.client == C.Do(j.client.(online := false), C.Connect)
    && k.server.state == LoginState(j, device, group) && k.server.groups == j.server.groups
    && |k.server.loops[id].sent| == 1
  }

  lemma LogIn(j: Joint, device: string, group: string) returns (steps: seq<Step>)
    requires CanLogIn(j, device, group) && C.Matched(j.client)
    ensures Welcomed(j, Run(j, steps), device, group)
  {
    var first := DialIn(j, device, group);
    var k := Run(j, first);
    var rest := Answer(k, j.server.nextId, P.Hello);
    Concat(j, first, rest);
    steps := first + rest;
    WelcomedAfter(j, k, Run(k, rest), device, group);
  }

  lemma WelcomedAfter(j: Joint, k: Joint, l: Joint, device: string, group: string)
    requires CanLogIn(j, device, group) && C.Matched(j.client) && Joined(j, k, device, group)
    requires Sent(k, l, j.server.nextId, P.Hello)
    ensures Welcomed(j, l, device, group)
  {
    assert j.client.(online := false) == j.client && C.Possible(j.client, C.Connect);
    StillAfter(j, k, l);
  }

  lemma StillAfter(j: Joint, k: Joint, l: Joint)
    requires Still(j.server, j.server.nextId)
    requires k.server.announcements == 0 && k.server.cutting == {} && k.server.nextId == j.server.nextId + 1
    requires k.server.loops.Keys == j.server.loops.Keys + {j.server.nextId}
    requires forall other <- j.server.loops | other != j.server.nextId :: k.server.loops[other] == j.server.loops[other]
    requires SameElse(k.server, l.server, j.server.nextId) && P.InPhase(l.server, j.server.nextId, P.Listening)
    ensures Still(l.server, l.server.nextId) && !P.SomethingInFlight(l.server)
  {
    forall other | other in l.server.loops ensures other < l.server.nextId && !l.server.loops[other].phase.Announcing? {
      if other != j.server.nextId {
        assert other in j.server.loops && l.server.loops[other] == k.server.loops[other] == j.server.loops[other];
      }
    }
  }

  // ---- Selecting a service ----

  /** The loop listens, has seen everything, and the client has read everything. */
  predicate Resting(j: Joint, id: nat) {
    AtRest(j) && j.link == Some(id) && Still(j.server, j.server.nextId) && j.client.managed && j.client.serving.None?
  }

  /** The client's request for `service` alone is on its way. */
  predicate Asking(c: C.System, service: C.Service) {
    && c.online && c.managed && c.toClient == [] && c.serving.None?
    && c.client.pending.Some? && c.client.pending.value.updated.services == [service]
    && c.toServer == [c.client.pending.value.request]
  }

  lemma Ask(j: Joint, id: nat, service: C.Service) returns (steps: seq<Step>)
    requires Resting(j, id) && C.Matched(j.client) && j.client.client.pending.None?
    ensures var k := Run(j, steps);
            && k.server == j.server && k.link == j.link && Asking(k.client, service)
            && k.client.client.config == j.client.client.config
            && k.client.client.pending.value.updated.key == j.client.client.config.key
            && k.client.client.table == C.ServiceMap([service])
  {
    var a := AtClient(C.Command([service]));
    Then(j, [], j, a);
    assert [] + [a] == [a];
    steps := [a];
  }

  /** The loop has read the request and carried it out. */
  predicate Carried(j: Joint, k: Joint, id: nat, service: C.Service) {
    && id in j.server.loops && id in k.server.loops && j.client.client.pending.Some?
    && SameElse(j.server, k.server, id) && k.link == j.link
    && k.server.state == T.UpdateServices(j.server.state, id, Declarations([service]))
    && k.server.loops[id].phase == P.Announcing(P.Receipt(j.client.client.pending.value.request))
    && k.client == j.client.(toServer := [], serving := Some(j.client.client.pending.value.request))
  }

  lemma Redeclares(s: T.State, id: nat, declarations: seq<T.Declaration>)
    requires id in s.sessions && s.sessions[id].services != T.ServiceMap(declarations)
    ensures T.UpdateReport(s, id, declarations).Some? && T.UpdateReport(s, id, declarations).value.changed
  {
  }

  lemma UpdateAnnounces(s: P.System, id: nat, request: nat, declarations: seq<T.Declaration>)
    requires P.InPhase(s, id, P.Listening)
    requires T.UpdateReport(s.state, id, declarations).Some? && T.UpdateReport(s.state, id, declarations).value.changed
    ensures var t := P.Do(s, P.Update(id, request, declarations));
            && SameElse(s, t, id) && t.state == T.UpdateServices(s.state, id, declarations)
            && id in t.loops && t.loops[id].phase == P.Announcing(P.Receipt(request))
  {
  }

  lemma CarryStep(j: Joint, id: nat, service: C.Service)
    requires j.link == Some(id) && P.InPhase(j.server, id, P.Listening) && Asking(j.client, service)
    requires id in j.server.state.sessions
    requires j.server.state.sessions[id].services != T.ServiceMap(Declarations([service]))
    ensures var step := AtServer(P.Update(id, j.client.toServer[0], Declarations([service])));
            Possible(j, step) && Carried(j, Do(j, step), id, service)
  {
    var request := j.client.toServer[0];
    Redeclares(j.server.state, id, Declarations([service]));
    UpdateAnnounces(j.server, id, request, Declarations([service]));
    assert C.Do(j.client, C.ServerRead) == j.client.(toServer := [], serving := Some(request));
  }

  lemma Carry(j: Joint, id: nat, service: C.Service) returns (steps: seq<Step>)
    requires j.link == Some(id) && P.InPhase(j.server, id, P.Listening) && Asking(j.client, service)
    requires id in j.server.state.sessions
    requires j.server.state.sessions[id].services != T.ServiceMap(Declarations([service]))
    ensures Carried(j, Run(j, steps), id, service)
  {
    CarryStep(j, id, service);
    steps := [AtServer(P.Update(id, j.client.toServer[0], Declarations([service])))];
    One(j, steps[0]);
  }

  /** The service is granted: the receipt shows it as enabled, and the client has read it. The
      lookup table is as it was before. */
  predicate Granted(j: Joint, k: Joint, id: nat, service: C.Service)
    requires j.client.client.pending.Some?
  {
    && Resting(k, id) && k.client.client.pending.None? && k.client.client.config.services == [service]
    && k.client.client.table == j.client.client.table
    && k.client.client.config.key == j.client.client.pending.value.updated.key
    && k.server.state == T.UpdateServices(j.server.state, id, Declarations([service]))
    && k.server.groups == j.server.groups
  }

  lemma Grant(j: Joint, id: nat, service: C.Service) returns (steps: seq<Step>)
    requires j.link == Some(id) && P.InPhase(j.server, id, P.Listening) && Asking(j.client, service)
    requires Still(j.server, j.server.nextId) && id in j.server.state.sessions
    requires j.server.state.sessions[id].services != T.ServiceMap(Declarations([service]))
    requires service.name in T.Owned(T.UpdateServices(j.server.state, id, Declarations([service])), id)
    requires T.OwnersValid(T.UpdateServices(j.server.state, id, Declarations([service])))
    ensures j.client.client.pending.Some? && Granted(j, Run(j, steps), id, service)
  {
    var request := j.client.client.pending.value.request;
    var first := Carry(j, id, service);
    var k := Run(j, first);
    var second := Answer(k, id, P.Receipt(request));
    var l := Run(k, second);
    Concat(j, first, second);
    var last := AtClient(C.ClientRead);
    Answered(j, k, l, id, service);
    Then(j, first + second, l, last);
    steps := first + second + [last];
    ReadGrant(j, l, id, service);
  }

  /** The receipt is on its way to the client. */
  predicate Replied(j: Joint, l: Joint, id: nat, service: C.Service)
    requires j.client.client.pending.Some?
  {
    var state := T.UpdateServices(j.server.state, id, Declarations([service]));
    && l.link == Some(id) && l.server.state == state && l.server.groups == j.server.groups
    && Still(l.server, l.server.nextId)
    && P.InPhase(l.server, id, P.Listening) && l.server.loops[id].seen == l.server.revision
    && l.client == j.client.(toServer := [], toClient := [C.Receipt(j.client.client.pending.value.request, T.CatalogOf(state, id))])
  }

  lemma Answered(j: Joint, k: Joint, l: Joint, id: nat, service: C.Service)
    requires Asking(j.client, service) && j.link == Some(id) && Still(j.server, j.server.nextId)
    requires Carried(j, k, id, service) && Sent(k, l, id, P.Receipt(j.client.client.pending.value.request))
    ensures Replied(j, l, id, service) && Possible(l, AtClient(C.ClientRead))
  {
    assert Still(l.server, l.server.nextId) by {
      assert forall other <- l.server.loops | other != id :: l.server.loops[other] == k.server.loops[other] == j.server.loops[other];
    }
    assert C.Possible(k.client, C.ServerReply(T.CatalogOf(k.server.state, id)));
  }

  lemma ReadGrant(j: Joint, l: Joint, id: nat, service: C.Service)
    requires Asking(j.client, service) && Replied(j, l, id, service)
    requires service.name in T.Owned(l.server.state, id) && T.OwnersValid(l.server.state)
    ensures Possible(l, AtClient(C.ClientRead)) && Granted(j, Do(l, AtClient(C.ClientRead)), id, service)
  {
    EnabledIsOwned(l.server.state, id);
    ReadReceipt(j.client, service, T.CatalogOf(l.server.state, id));
    ReadingIs(l);
    StillMeansQuiet(l.server);
    GrantedAfter(j, l, C.DoClientRead(l.client), id, service);
  }

  /** What reading is for both sides, as long as the client stays online. */
  lemma ReadingIs(l: Joint)
    requires l.client.online && l.client.toClient != []
    ensures Possible(l, AtClient(C.ClientRead))
    ensures C.DoClientRead(l.client).online ==> Do(l, AtClient(C.ClientRead)) == l.(client := C.DoClientRead(l.client))
  {
  }

  lemma GrantedAfter(j: Joint, l: Joint, d: C.System, id: nat, service: C.Service)
    requires Asking(j.client, service) && Replied(j, l, id, service) && !P.SomethingInFlight(l.server)
    requires d.online && d.managed && d.toClient == [] && d.serving.None? && d.client.pending.None?
    requires d.client.config == j.client.client.pending.value.updated && d.client.table == j.client.client.table
    ensures Granted(j, l.(client := d), id, service)
  {
  }

  lemma StillMeansQuiet(s: P.System)
    requires Still(s, s.nextId)
    ensures !P.SomethingInFlight(s)
  {
  }

  /** Reading the receipt of a request for one enabled service. */
  lemma ReadReceipt(c: C.System, service: C.Service, tunnels: T.Catalog)
    requires Asking(c, service) && service.name in C.EnabledNames(tunnels)
    ensures var pending := c.client.pending.value;
            var d := C.DoClientRead(c.(toServer := [], toClient := [C.Receipt(pending.request, tunnels)]));
            && d.online && d.managed && d.toClient == [] && d.serving.None?
            && d.client.pending.None? && d.client.config == pending.updated && d.client.table == c.client.table
  {
    C.FilterMembers([service], C.EnabledNames(tunnels));
    var message := C.Receipt(c.client.pending.value.request, tunnels);
    assert [message][1..] == [];
  }

  // ---- A client with one service ----

  lemma DeclaresOne(service: C.Service)
    ensures T.ServiceMap(Declarations([service])) == map[service.name := service.kind]
  {
    var one := [T.Declaration(service.name, service.kind)];
    assert [service][..0] == [] && Declarations([]) == [] && [] + one == one;
    assert Declarations([service]) == one && one[..0] == [];
  }

  /** The tunnel of the service is configured for the group. */
  predicate Offered(tunnels: map<string, Spec>, group: string, service: C.Service) {
    service.name in tunnels && tunnels[service.name].group == group && tunnels[service.name].kind == service.kind
  }

  /** Session `id` of `group` is the only one. */
  predicate Alone(s: T.State, id: nat, group: string) {
    s.sessions.Keys == {id} && s.sessions[id].group == group
  }

  lemma UpdatedSession(s: T.State, id: nat, declarations: seq<T.Declaration>)
    requires id in s.sessions
    ensures var t := T.UpdateServices(s, id, declarations);
            && t.sessions == s.sessions[id := s.sessions[id].(services := T.ServiceMap(declarations))]
            && t.tunnels == s.tunnels && t.credentials == s.credentials
  {
  }

  lemma AloneOwns(t: T.State, id: nat, group: string, service: C.Service)
    requires T.OwnersValid(t) && T.NothingLeftToClaim(t, id) && Alone(t, id, group) && Offered(t.tunnels, group, service)
    requires t.sessions[id].services == map[service.name := service.kind]
    ensures service.name in T.Owned(t, id)
  {
    assert T.Eligible(t.sessions[id], service.name, t.tunnels[service.name]);
    assert T.ValidOwner(t, service.name, t.owners[service.name]);
  }

  lemma OnlySessionOwns(s: T.State, id: nat, group: string, service: C.Service)
    requires T.Inv(s) && Alone(s, id, group) && Offered(s.tunnels, group, service)
    ensures var t := T.UpdateServices(s, id, Declarations([service]));
            && Alone(t, id, group) && t.tunnels == s.tunnels && t.credentials == s.credentials && T.OwnersValid(t)
            && t.sessions[id].services == map[service.name := service.kind] && t.sessions[id].device == s.sessions[id].device
            && service.name in T.Owned(t, id)
  {
    DeclaresOne(service);
    UpdatedSession(s, id, Declarations([service]));
    T.UpdateServicesKeeps(s, id, Declarations([service]));
    AloneOwns(T.UpdateServices(s, id, Declarations([service])), id, group, service);
  }

  /** The client is online as the only one, with `service` selected and nothing under way. */
  predicate SetUp(j: Joint, group: string, device: string, key: string, tunnels: map<string, Spec>, service: C.Service) {
    && Resting(j, 1) && j.client.client.pending.None? && j.client.client.config.services == [service]
    && j.client.client.config.key == key && j.server.groups == [(group, key)]
    && Alone(j.server.state, 1, group) && j.server.state.tunnels == tunnels
    && j.server.state.credentials == map[group := T.Sha256(key)]
    && j.server.state.sessions[1].services == map[service.name := service.kind] && j.server.state.sessions[1].device == device
  }

  lemma FirstLogin(group: string, device: string, configs: seq<TunnelConfig>, config: C.Config) returns (steps: seq<Step>)
    ensures var start := Initial([(group, config.key)], configs, config, true);
            CanLogIn(start, device, group) && Welcomed(start, Run(start, steps), device, group)
  {
    var groups := [(group, config.key)];
    var start := Initial(groups, configs, config, true);
    assert groups[..0] == [] && T.CredentialMap(groups) == map[group := T.Sha256(config.key)];
    C.Reachable(config, true, []);
    steps := LogIn(start, device, group);
  }

  /** The state after the first login. */
  lemma FirstState(group: string, device: string, configs: seq<TunnelConfig>, config: C.Config)
    ensures var s := LoginState(Initial([(group, config.key)], configs, config, true), device, group);
            && Alone(s, 1, group) && s.sessions[1].services == map[] && s.sessions[1].device == device
            && s.tunnels == Specs(ByName(configs)) && s.credentials == map[group := T.Sha256(config.key)]
  {
    var groups := [(group, config.key)];
    assert groups[..0] == [] && T.CredentialMap(groups) == map[group := T.Sha256(config.key)];
  }

  /** The client is online as the only one, with nothing selected. */
  predicate Fresh(j: Joint, group: string, device: string, key: string, tunnels: map<string, Spec>) {
    && Resting(j, 1) && j.client.client.pending.None? && C.Matched(j.client) && T.Inv(j.server.state)
    && j.client.client.config.key == key && j.server.groups == [(group, key)]
    && Alone(j.server.state, 1, group) && j.server.state.tunnels == tunnels
    && j.server.state.credentials == map[group := T.Sha256(key)]
    && j.server.state.sessions[1].services == map[] && j.server.state.sessions[1].device == device
  }

  lemma FreshRun(group: string, device: string, configs: seq<TunnelConfig>, config: C.Config) returns (steps: seq<Step>)
    ensures Fresh(Run(Initial([(group, config.key)], configs, config, true), steps), group, device, config.key, Specs(ByName(configs)))
  {
    steps := FirstLogin(group, device, configs, config);
    FirstState(group, device, configs, config);
    RunSides([(group, config.key)], configs, config, true, steps);
  }

  lemma Select(j: Joint, group: string, device: string, key: string, tunnels: map<string, Spec>, service: C.Service)
    returns (steps: seq<Step>)
    requires Fresh(j, group, device, key, tunnels) && Offered(tunnels, group, service)
    ensures SetUp(Run(j, steps), group, device, key, tunnels, service)
  {
    var first := Ask(j, 1, service);
    var k := Run(j, first);
    OnlySessionOwns(k.server.state, 1, group, service);
    DeclaresOne(service);
    var second := Grant(k, 1, service);
    Concat(j, first, second);
    steps := first + second;
  }

  lemma SetUpRun(group: string, device: string, configs: seq<TunnelConfig>, config: C.Config, service: C.Service)
    returns (steps: seq<Step>)
    requires Offered(Specs(ByName(configs)), group, service)
    ensures SetUp(Run(Initial([(group, config.key)], configs, config, true), steps), group, device, config.key,
                  Specs(ByName(configs)), service)
  {
    var start := Initial([(group, config.key)], configs, config, true);
    var first := FreshRun(group, device, configs, config);
    var second := Select(Run(start, first), group, device, config.key, Specs(ByName(configs)), service);
    Concat(start, first, second);
    steps := first + second;
  }

  // ---- The selection that nobody serves ----

  predicate Reconfigured(j: Joint, k: Joint, configs: seq<TunnelConfig>) {
    && k.client == j.client && k.link == j.link
    && k.server.state == T.ApplyTunnels(j.server.state, configs) && k.server.revision == j.server.revision + 1
    && k.server.announcements == j.server.announcements && k.server.cutting == j.server.cutting
    && k.server.groups == j.server.groups && k.server.nextId == j.server.nextId && k.server.loops == j.server.loops
  }

  /** The server reloads its tunnels and announces it. */
  lemma Reconfigure(j: Joint, configs: seq<TunnelConfig>) returns (steps: seq<Step>)
    ensures Reconfigured(j, Run(j, steps), configs)
  {
    var a, b := AtServer(P.ReloadTunnels(configs)), AtServer(P.Notify);
    ReconfigureSteps(j, configs);
    One(j, a);
    Then(j, [a], Do(j, a), b);
    steps := [a] + [b];
  }

  lemma ReconfigureSteps(j: Joint, configs: seq<TunnelConfig>)
    ensures var a, b := AtServer(P.ReloadTunnels(configs)), AtServer(P.Notify);
            Possible(j, a) && Possible(Do(j, a), b) && Reconfigured(j, Do(Do(j, a), b), configs)
  {
  }

  lemma HangUp(j: Joint, id: nat) returns (steps: seq<Step>)
    requires Resting(j, id) && C.Matched(j.client)
    ensures Run(j, steps) == Joint(j.server, C.Cut(j.client), None) && C.Matched(C.Cut(j.client))
  {
    var a := AtClient(C.Disconnect);
    Then(j, [], j, a);
    assert [] + [a] == [a];
    C.MatchedStep(j.client, C.Disconnect);
    steps := [a];
  }

  /** The client of `SetUp` may log in again as another device after all tunnels were removed. */
  lemma MayReturn(j: Joint, k: Joint, group: string, device: string, device': string, key: string, tunnels: map<string, Spec>,
                  service: C.Service)
    requires SetUp(j, group, device, key, tunnels, service) && device' != device && C.Matched(C.Cut(j.client))
    requires Reconfigured(Joint(j.server, C.Cut(j.client), None), k, [])
    ensures CanLogIn(k, device', group) && k.server.state.tunnels == map[]
    ensures k.client == C.Cut(j.client)
  {
    assert k.server.state.sessions == j.server.state.sessions && k.server.state.credentials == j.server.state.credentials;
    assert |k.server.state.sessions.Keys| == 1;
  }

  /**
  For any service: the client selects it, hangs up, the server drops its tunnel, and the client
  logs in again. At rest, with the hello read, it still selects the service, which no tunnel serves.
  */
  lemma UnownedSelection(group: string, device: string, device': string, configs: seq<TunnelConfig>, config: C.Config, service: C.Service)
    returns (steps: seq<Step>)
    requires Offered(Specs(ByName(configs)), group, service) && device' != device
    ensures var j := Run(Initial([(group, config.key)], configs, config, true), steps);
            AtRest(j) && j.client.client.config.services == [service] && !OwnsSelection(j, j.link.value)
  {
    var groups, start := [(group, config.key)], Initial([(group, config.key)], configs, config, true);
    var first := SetUpRun(group, device, configs, config, service);
    var j := Run(start, first);
    RunSides(groups, configs, config, true, first);
    var second := Return(j, group, device, device', config.key, Specs(ByName(configs)), service);
    Concat(start, first, second);
    steps := first + second;
    RunSides(groups, configs, config, true, steps);
    var k := Run(start, steps);
    NoTunnelNoOwner(k.server.state, k.link.value, service.name);
    assert service in k.client.client.config.services;
  }

  lemma Return(j: Joint, group: string, device: string, device': string, key: string, tunnels: map<string, Spec>, service: C.Service)
    returns (steps: seq<Step>)
    requires SetUp(j, group, device, key, tunnels, service) && C.Matched(j.client) && device' != device
    ensures var k := Run(j, steps);
            AtRest(k) && k.client.client.config.services == [service] && k.server.state.tunnels == map[]
  {
    var first := HangUp(j, 1);
    var a := Run(j, first);
    var second := Reconfigure(a, []);
    var b := Run(a, second);
    MayReturn(j, b, group, device, device', key, tunnels, service);
    var third := LogIn(b, device', group);
    Concat(j, first, second);
    Concat(j, first + second, third);
    steps := first + second + third;
  }

  lemma NoTunnelNoOwner(s: T.State, id: nat, name: string)
    requires T.OwnersValid(s) && s.tunnels == map[]
    ensures name !in T.Owned(s, id)
  {
    assert name in s.owners ==> T.ValidOwner(s, name, s.owners[name]);
  }

  // ---- The stale lookup table ----

  /** The loop notices a new revision. */
  lemma ObserveStep(j: Joint, id: nat)
    requires P.InPhase(j.server, id, P.Listening) && j.server.loops[id].seen != j.server.revision
    ensures Possible(j, AtServer(P.Observe(id)))
    ensures Do(j, AtServer(P.Observe(id)))
         == WithLoop(j, id, j.server.loops[id].(phase := P.Reading(P.Snapshot), seen := j.server.revision), j.server.revision)
  {
  }

  lemma Show(j: Joint, id: nat) returns (steps: seq<Step>)
    requires j.link == Some(id) && P.InPhase(j.server, id, P.Listening) && j.server.loops[id].seen != j.server.revision
    ensures Sent(j, Run(j, steps), id, P.Snapshot)
  {
    var a := AtServer(P.Observe(id));
    ObserveStep(j, id);
    Then(j, [], j, a);
    assert [] + [a] == [a];
    var k := WithLoop(j, id, j.server.loops[id].(phase := P.Reading(P.Snapshot), seen := j.server.revision), j.server.revision);
    var rest := ReadAndSend(k, id, P.Snapshot);
    Concat(j, [a], rest);
    steps := [a] + rest;
  }

  lemma DropFirst(c: C.System, first: C.Service, second: C.Service, tunnels: T.Catalog)
    requires Asking(c, second) && c.client.config.services == [first] && first.name !in C.EnabledNames(tunnels)
    ensures var shown := Follow(c, Some(C.ServerSnapshot(tunnels)));
            && C.Possible(shown, C.ClientRead)
            && var d := C.Do(shown, C.ClientRead); Asking(d, second) && d.client.table == map[]
  {
    assert [first][..0] == [] && C.Filter([], C.EnabledNames(tunnels)) == [];
    var shown := Follow(c, Some(C.ServerSnapshot(tunnels)));
    assert shown.toClient == [C.Snapshot(tunnels)] && shown.toClient[1..] == [];
  }

  /** While the switch to `second` is pending, a snapshot without `first` has emptied the table. */
  predicate Emptied(j: Joint, group: string, first: C.Service, second: C.Service, tunnels: map<string, Spec>) {
    && j.link == Some(1) && P.InPhase(j.server, 1, P.Listening) && Still(j.server, j.server.nextId)
    && Asking(j.client, second) && j.client.client.table == map[]
    && T.Inv(j.server.state) && Alone(j.server.state, 1, group) && j.server.state.tunnels == tunnels
    && j.server.state.sessions[1].services == map[first.name := first.kind]
  }

  lemma AskAndDrop(j: Joint, group: string, device: string, key: string, tunnels: map<string, Spec>,
                   first: C.Service, second: C.Service, configs: seq<TunnelConfig>) returns (steps: seq<Step>)
    requires SetUp(j, group, device, key, tunnels, first) && C.Matched(j.client) && T.Inv(j.server.state)
    requires first.name !in Specs(ByName(configs))
    ensures Emptied(Run(j, steps), group, first, second, Specs(ByName(configs)))
  {
    var asks := Ask(j, 1, second);
    var a := Run(j, asks);
    var reloads := Reconfigure(a, configs);
    var b := Run(a, reloads);
    var shows := Show(b, 1);
    var c := Run(b, shows);
    EmptiedAfter(a, b, c, group, first, second, configs);
    Concat(j, asks, reloads);
    Concat(j, asks + reloads, shows);
    Then(j, asks + reloads + shows, c, AtClient(C.ClientRead));
    steps := asks + reloads + shows + [AtClient(C.ClientRead)];
  }

  lemma EmptiedAfter(a: Joint, b: Joint, c: Joint, group: string, first: C.Service, second: C.Service, configs: seq<TunnelConfig>)
    requires a.link == Some(1) && Still(a.server, a.server.nextId) && Asking(a.client, second)
    requires a.client.client.config.services == [first]
    requires T.Inv(a.server.state) && Alone(a.server.state, 1, group)
    requires a.server.state.sessions[1].services == map[first.name := first.kind]
    requires Reconfigured(a, b, configs) && Sent(b, c, 1, P.Snapshot) && first.name !in Specs(ByName(configs))
    ensures Possible(c, AtClient(C.ClientRead))
    ensures Emptied(Do(c, AtClient(C.ClientRead)), group, first, second, Specs(ByName(configs)))
  {
    T.ApplyTunnelsKeeps(a.server.state, configs);
    ReloadedSessions(a.server.state, configs);
    NotShown(b.server.state, 1, first.name);
    DropFirst(b.client, first, second, T.CatalogOf(b.server.state, 1));
    ReadingIs(c);
  }

  lemma NotShown(s: T.State, id: nat, name: string)
    requires name !in s.tunnels
    ensures name !in C.EnabledNames(T.CatalogOf(s, id))
  {
  }

  lemma ReloadedSessions(s: T.State, configs: seq<TunnelConfig>)
    ensures var t := T.ApplyTunnels(s, configs); t.sessions == s.sessions && t.tunnels == Specs(ByName(configs))
  {
  }

  /**
  For any two services: while the client switches from the first to the second, the server drops
  the first one's tunnel and says so before it answers. The client ends with the second selected
  and owned, nothing pending, and an empty lookup table.
  */
  lemma StaleTable(group: string, device: string, configs: seq<TunnelConfig>, configs': seq<TunnelConfig>, config: C.Config,
                   first: C.Service, second: C.Service) returns (steps: seq<Step>)
    requires Offered(Specs(ByName(configs)), group, first)
    requires Offered(Specs(ByName(configs')), group, second) && first.name !in Specs(ByName(configs'))
    ensures var j := Run(Initial([(group, config.key)], configs, config, true), steps);
            && AtRest(j) && j.client.client.pending.None? && j.client.client.config.services == [second]
            && j.client.client.table == map[] && second.name in C.ServiceMap([second])
  {
    var groups, start := [(group, config.key)], Initial([(group, config.key)], configs, config, true);
    var before := SetUpRun(group, device, configs, config, first);
    var j := Run(start, before);
    RunSides(groups, configs, config, true, before);
    var rest := SwitchOvertaken(j, group, device, config.key, Specs(ByName(configs)), first, second, configs');
    Concat(start, before, rest);
    steps := before + rest;
    assert [second][..0] == [];
  }

  lemma SwitchOvertaken(j: Joint, group: string, device: string, key: string, tunnels: map<string, Spec>,
                        first: C.Service, second: C.Service, configs: seq<TunnelConfig>) returns (steps: seq<Step>)
    requires SetUp(j, group, device, key, tunnels, first) && C.Matched(j.client) && T.Inv(j.server.state)
    requires Offered(Specs(ByName(configs)), group, second) && first.name !in Specs(ByName(configs))
    ensures var k := Run(j, steps);
            && AtRest(k) && k.client.client.pending.None? && k.client.client.config.services == [second]
            && k.client.client.table == map[]
  {
    var one := AskAndDrop(j, group, device, key, tunnels, first, second, configs);
    var k := Run(j, one);
    OnlySessionOwns(k.server.state, 1, group, second);
    DeclaresOne(second);
    assert second.name !in k.server.state.sessions[1].services;
    var two := Grant(k, 1, second);
    Concat(j, one, two);
    steps := one + two;
  }
}
