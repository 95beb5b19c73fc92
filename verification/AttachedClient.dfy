/**
One client attached to the server: the client of `ClientSession` talks to one of the session loops
of `TunnelProtocol`, while everything else goes on at the server.
*/
module AttachedClient {
  import opened Options
  import opened TunnelConfigs
  import T = TunnelState
  import P = TunnelProtocol
  import C = ClientSession

  /** `link`: the session loop the client is connecting or connected to. */
  datatype Joint = Joint(server: P.System, client: C.System, link: Option<nat>)

  /** The client dials or gives up dialling, the server does anything it can do, or the client does
      something that is not the server's doing. */
  datatype Step = Dial | GiveUp | AtServer(p: P.Step) | AtClient(c: C.Step)

  function Declarations(services: seq<C.Service>): seq<T.Declaration> {
    if services == [] then []
    else
      var last := services[|services| - 1];
      Declarations(services[..|services| - 1]) + [T.Declaration(last.name, last.kind)]
  }

  /** What the attached loop reads is what the client wrote. */
  predicate Fits(j: Joint, p: P.Step) {
    match p
    case Authenticate(id, key) => j.link == Some(id) ==> key == j.client.client.config.key
    case Login(id, _, declarations) => j.link == Some(id) ==> declarations == Declarations(j.client.client.config.services)
    case Update(id, request, declarations) =>
      j.link == Some(id) ==>
        && j.client.toServer != [] && j.client.toServer[0] == request && j.client.client.pending.Some?
        && declarations == Declarations(j.client.client.pending.value.updated.services)
    case _ => true
  }

  predicate Possible(j: Joint, step: Step) {
    match step
    case Dial => !j.client.online && j.link.None?
    case GiveUp => !j.client.online && j.link.Some?
    case AtServer(p) => P.Possible(j.server, p) && Fits(j, p)
    case AtClient(c) =>
      && (c.Command? || c.FileChange? || c.ClientRead? || c.Disconnect?)
      && C.Possible(j.client, c)
  }

  /** What a step of the server is for the client. */
  function Echo(server: P.System, link: Option<nat>, p: P.Step): Option<C.Step>
    requires P.Possible(server, p)
  {
    match p
    case Update(id, _, _) => if link == Some(id) then Some(C.ServerRead) else None
    case Send(id) =>
      if link != Some(id) then None
      else
        (match server.loops[id].phase.reply
         case Hello => Some(C.Connect)
         case Receipt(_) => Some(C.ServerReply(server.loops[id].phase.tunnels))
         case Snapshot => Some(C.ServerSnapshot(server.loops[id].phase.tunnels)))
    case _ => None
  }

  function Follow(c: C.System, echo: Option<C.Step>): C.System {
    if echo.Some? && C.Possible(c, echo.value) then C.Do(c, echo.value) else c
  }

  function Do(j: Joint, step: Step): Joint
    requires Possible(j, step)
  {
    match step
    case Dial => Joint(P.Do(j.server, P.Accept), j.client, Some(j.server.nextId))
    case GiveUp => j.(link := None)
    case AtServer(p) => j.(server := P.Do(j.server, p), client := Follow(j.client, Echo(j.server, j.link, p)))
    case AtClient(c) =>
      var client := C.Do(j.client, c);
      j.(client := client, link := if client.online then j.link else None)
  }

  function Initial(groups: seq<(string, string)>, configs: seq<TunnelConfig>, config: C.Config, managed: bool): Joint {
    Joint(P.Initial(groups, configs), C.Initial(config, managed), None)
  }

  /** Any schedule: a step that is not possible where it comes is skipped. */
  function Run(j: Joint, steps: seq<Step>): Joint {
    if steps == [] then j
    else
      var before := Run(j, steps[..|steps| - 1]);
      if Possible(before, steps[|steps| - 1]) then Do(before, steps[|steps| - 1]) else before
  }

  // ---- Both sides are what they are alone ----

  lemma {:induction false} ClientRunAppend(s: C.System, steps: seq<C.Step>, last: C.Step)
    ensures C.Run(s, steps + [last]) == Follow(C.Run(s, steps), Some(last))
    decreases steps
  {
    if steps == [] {
      assert [last][1..] == [];
    } else {
      assert (steps + [last])[1..] == steps[1..] + [last] && (steps + [last])[0] == steps[0];
      ClientRunAppend(if C.Possible(s, steps[0]) then C.Do(s, steps[0]) else s, steps[1..], last);
    }
  }

  /** What one joint step is for each side, if anything. */
  function ServerPart(step: Step): seq<P.Step> {
    match step
    case Dial => [P.Accept]
    case AtServer(p) => [p]
    case _ => []
  }

  function ClientPart(j: Joint, step: Step): seq<C.Step>
    requires Possible(j, step)
  {
    match step
    case AtServer(p) => if Echo(j.server, j.link, p).Some? then [Echo(j.server, j.link, p).value] else []
    case AtClient(c) => [c]
    case _ => []
  }

  /** In every joint run the client goes through a run of `ClientSession` and the server through a
      run of `TunnelProtocol`: everything proved of either holds of the two together. */
  lemma {:induction false} Projects(j: Joint, steps: seq<Step>) returns (clientSteps: seq<C.Step>, serverSteps: seq<P.Step>)
    ensures Run(j, steps).client == C.Run(j.client, clientSteps)
    ensures Run(j, steps).server == P.Run(j.server, serverSteps)
  {
    if steps == [] {
      clientSteps, serverSteps := [], [];
    } else {
      var before, last := Run(j, steps[..|steps| - 1]), steps[|steps| - 1];
      clientSteps, serverSteps := Projects(j, steps[..|steps| - 1]);
      if Possible(before, last) {
        if ClientPart(before, last) != [] {
          ClientRunAppend(j.client, clientSteps, ClientPart(before, last)[0]);
          clientSteps := clientSteps + ClientPart(before, last);
        }
        if ServerPart(last) != [] {
          P.RunAppend(j.server, serverSteps, ServerPart(last)[0]);
          serverSteps := serverSteps + ServerPart(last);
        }
      }
    }
  }

  // ---- The two ends of the connection ----

  predicate HasReply(phase: P.Phase) {
    phase.Announcing? || phase.Marking? || phase.Reading? || phase.Sending?
  }

  function Answering(phase: P.Phase): Option<nat>
    requires HasReply(phase)
  {
    match phase.reply
    case Receipt(request) => Some(request)
    case _ => None
  }

  function MessageOf(frame: P.Frame): C.Message {
    match frame.reply
    case Receipt(request) => C.Receipt(request, frame.tunnels)
    case _ => C.Snapshot(frame.tunnels)
  }

  /** Until the server's hello is out the client is not online and nothing else is sent. */
  predicate Dialling(loop: P.Loop) {
    loop.sent == [] && (HasReply(loop.phase) ==> loop.phase.reply.Hello?)
  }

  /** The queue to the client holds the last frames sent, after the hello; the loop answers exactly
      the request it has read. */
  predicate Connected(loop: P.Loop, c: C.System) {
    && |c.toClient| < |loop.sent| && !P.NotLoggedIn(loop)
    && (forall k | 0 <= k < |c.toClient| :: c.toClient[k] == MessageOf(loop.sent[|loop.sent| - |c.toClient| + k]))
    && (HasReply(loop.phase) ==> !loop.phase.reply.Hello? && c.serving == Answering(loop.phase))
    && (loop.phase.Listening? ==> c.serving.None?)
  }

  predicate AllEnabled(services: seq<C.Service>, tunnels: T.Catalog) {
    forall service <- services :: service.name in C.EnabledNames(tunnels)
  }

  /** A managed client selects what the last frame it read shows as enabled; the hello does not
      count, it leaves what the login declared. */
  predicate Shown(loop: P.Loop, c: C.System)
    requires |c.toClient| < |loop.sent|
  {
    var read := |loop.sent| - |c.toClient|;
    c.managed ==>
      if read == 1 then c.client.config.services == c.declared
      else AllEnabled(c.client.config.services, loop.sent[read - 1].tunnels)
  }

  predicate Coupled(server: P.System, c: C.System, link: Option<nat>) {
    && (c.online ==> link.Some?)
    && (link.Some? ==>
          && link.value in server.loops
          && var loop := server.loops[link.value];
             if c.online then Connected(loop, c) && Shown(loop, c) else Dialling(loop))
  }

  // ---- Steps of the server ----

  /** The loop a step belongs to. */
  function LoopOf(p: P.Step): Option<nat> {
    match p
    case Authenticate(id, _) => Some(id)
    case Login(id, _, _) => Some(id)
    case Update(id, _, _) => Some(id)
    case Announce(id) => Some(id)
    case Mark(id) => Some(id)
    case Observe(id) => Some(id)
    case Read(id) => Some(id)
    case Send(id) => Some(id)
    case Break(id) => Some(id)
    case Leave(id) => Some(id)
    case _ => None
  }

  lemma OtherLoops(server: P.System, p: P.Step, id: nat)
    requires P.Possible(server, p) && id in server.loops && id < server.nextId && LoopOf(p) != Some(id)
    ensures id in P.Do(server, p).loops && P.Do(server, p).loops[id] == server.loops[id]
  {
    if LoopOf(p).Some? {
      LoopStepElsewhere(server, p, id);
    } else if !p.Accept? {
      NoLoopMoves(server, p);
    }
  }

  lemma LoopStepElsewhere(server: P.System, p: P.Step, id: nat)
    requires P.Possible(server, p) && id in server.loops && LoopOf(p).Some? && LoopOf(p) != Some(id)
    ensures id in P.Do(server, p).loops && P.Do(server, p).loops[id] == server.loops[id]
  {
  }

  lemma NoLoopMoves(server: P.System, p: P.Step)
    requires P.Possible(server, p) && LoopOf(p).None? && !p.Accept?
    ensures P.Do(server, p).loops == server.loops
  {
  }

  /** The attached loop moves without writing or reading. */
  predicate Quiet(p: P.Step) {
    !p.Update? && !p.Send?
  }

  predicate QuietMove(a: P.Loop, b: P.Loop) {
    && b.sent == a.sent
    && (|| b.phase.Leaving? || b.phase.Gone?
        || (P.NotLoggedIn(a) && (b.phase.Authenticated? || (HasReply(b.phase) && b.phase.reply.Hello?)))
        || (HasReply(a.phase) && HasReply(b.phase) && b.phase.reply == a.phase.reply)
        || (a.phase.Listening? && b.phase == P.Reading(P.Snapshot)))
  }

  lemma QuietMoves(server: P.System, p: P.Step, id: nat)
    requires P.Possible(server, p) && LoopOf(p) == Some(id) && Quiet(p)
    ensures id in server.loops && id in P.Do(server, p).loops && QuietMove(server.loops[id], P.Do(server, p).loops[id])
  {
  }

  lemma QuietKeeps(a: P.Loop, b: P.Loop, c: C.System)
    requires QuietMove(a, b) && (a.phase.Listening? ==> a.sent != [])
    ensures Dialling(a) ==> Dialling(b)
    ensures Connected(a, c) ==> Connected(b, c)
  {
  }

  predicate UpdateMove(a: P.Loop, b: P.Loop, request: nat) {
    b.sent == a.sent && (b.phase.Leaving? || (HasReply(b.phase) && b.phase.reply == P.Receipt(request)))
  }

  lemma UpdateMoves(server: P.System, id: nat, request: nat, declarations: seq<T.Declaration>)
    requires P.InPhase(server, id, P.Listening)
    ensures var t := P.Do(server, P.Update(id, request, declarations));
            id in t.loops && UpdateMove(server.loops[id], t.loops[id], request)
  {
  }

  lemma UpdateKeeps(a: P.Loop, b: P.Loop, request: nat, c: C.System)
    requires UpdateMove(a, b, request) && a.phase.Listening? && c.online && Connected(a, c) && Shown(a, c)
    requires c.toServer != [] && c.toServer[0] == request
    ensures C.Possible(c, C.ServerRead)
    ensures var d := C.Do(c, C.ServerRead); d.online && Connected(b, d) && Shown(b, d)
  {
    var d := C.Do(c, C.ServerRead);
    assert d.toClient == c.toClient && d.serving == Some(request);
  }

  lemma HelloStep(server: P.System, id: nat, c: C.System)
    requires id in server.loops && server.loops[id].phase.Sending? && Dialling(server.loops[id])
    requires !c.online && C.Matched(c)
    ensures Echo(server, Some(id), P.Send(id)) == Some(C.Connect) && C.Possible(c, C.Connect)
    ensures var t, d := P.Do(server, P.Send(id)), C.Do(c, C.Connect);
            && id in t.loops && d.online && Connected(t.loops[id], d) && Shown(t.loops[id], d)
  {
  }

  lemma SendStep(server: P.System, id: nat, c: C.System)
    requires id in server.loops && server.loops[id].phase.Sending? && c.online
    requires Connected(server.loops[id], c) && Shown(server.loops[id], c)
    ensures Echo(server, Some(id), P.Send(id)).Some? && C.Possible(c, Echo(server, Some(id), P.Send(id)).value)
    ensures var t, d := P.Do(server, P.Send(id)), Follow(c, Echo(server, Some(id), P.Send(id)));
            && id in t.loops && d.online && Connected(t.loops[id], d) && Shown(t.loops[id], d)
  {
    var loop, d := server.loops[id], Follow(c, Echo(server, Some(id), P.Send(id)));
    var frame := P.Frame(loop.phase.reply, loop.phase.tunnels);
    SendMoves(server, id);
    SendKeeps(loop, P.Do(server, P.Send(id)).loops[id], frame, c, d);
  }

  lemma SendMoves(server: P.System, id: nat)
    requires id in server.loops && server.loops[id].phase.Sending?
    ensures var loop, t := server.loops[id], P.Do(server, P.Send(id));
            && id in t.loops && t.loops[id].phase.Listening?
            && t.loops[id].sent == loop.sent + [P.Frame(loop.phase.reply, loop.phase.tunnels)]
  {
  }

  lemma SendKeeps(a: P.Loop, b: P.Loop, frame: P.Frame, c: C.System, d: C.System)
    requires Connected(a, c) && Shown(a, c) && b.phase.Listening? && b.sent == a.sent + [frame]
    requires d == c.(toClient := c.toClient + [MessageOf(frame)], serving := None)
    ensures Connected(b, d) && Shown(b, d)
  {
  }

  predicate LoopsReady(s: P.System) {
    forall id <- s.loops :: id < s.nextId && (s.loops[id].phase.Listening? ==> s.loops[id].sent != [])
  }

  /** Steps that neither read nor write on the connection. */
  lemma SilentStepCoupled(server: P.System, p: P.Step, c: C.System, link: Option<nat>)
    requires P.Possible(server, p) && Coupled(server, c, link) && LoopsReady(server)
    requires link.None? || LoopOf(p) != link || Quiet(p)
    ensures Coupled(P.Do(server, p), c, link)
  {
    if link.Some? {
      var id := link.value;
      if LoopOf(p) != Some(id) {
        OtherLoops(server, p, id);
      } else {
        QuietMoves(server, p, id);
        QuietKeeps(server.loops[id], P.Do(server, p).loops[id], c);
      }
    }
  }

  lemma UpdateCoupled(server: P.System, id: nat, request: nat, declarations: seq<T.Declaration>, c: C.System)
    requires P.InPhase(server, id, P.Listening) && Coupled(server, c, Some(id)) && LoopsReady(server)
    requires c.toServer != [] && c.toServer[0] == request
    ensures C.Possible(c, C.ServerRead)
    ensures Coupled(P.Do(server, P.Update(id, request, declarations)), C.Do(c, C.ServerRead), Some(id))
  {
    UpdateMoves(server, id, request, declarations);
    UpdateKeeps(server.loops[id], P.Do(server, P.Update(id, request, declarations)).loops[id], request, c);
  }

  lemma SendCoupled(server: P.System, id: nat, c: C.System)
    requires id in server.loops && server.loops[id].phase.Sending? && Coupled(server, c, Some(id)) && C.Matched(c)
    ensures Echo(server, Some(id), P.Send(id)).Some? && C.Possible(c, Echo(server, Some(id), P.Send(id)).value)
    ensures Coupled(P.Do(server, P.Send(id)), Follow(c, Echo(server, Some(id), P.Send(id))), Some(id))
  {
    if c.online {
      SendStep(server, id, c);
    } else {
      HelloStep(server, id, c);
    }
  }

  lemma ServerStepCoupled(server: P.System, p: P.Step, c: C.System, link: Option<nat>)
    requires P.Possible(server, p) && Fits(Joint(server, c, link), p) && Coupled(server, c, link) && C.Matched(c)
    requires LoopsReady(server)
    ensures Coupled(P.Do(server, p), Follow(c, Echo(server, link, p)), link)
    ensures Echo(server, link, p).Some? ==> C.Possible(c, Echo(server, link, p).value)
  {
    if link.None? || LoopOf(p) != link || Quiet(p) {
      assert Echo(server, link, p) == None;
      SilentStepCoupled(server, p, c, link);
    } else if p.Update? {
      assert Echo(server, link, p) == Some(C.ServerRead);
      UpdateCoupled(server, p.id, p.request, p.declarations, c);
    } else {
      SendCoupled(server, p.id, c);
    }
  }

  // ---- Steps of the client ----

  lemma FilterEnabled(services: seq<C.Service>, tunnels: T.Catalog)
    ensures AllEnabled(C.Filter(services, C.EnabledNames(tunnels)), tunnels)
  {
    C.FilterMembers(services, C.EnabledNames(tunnels));
  }

  lemma ReadStep(loop: P.Loop, c: C.System)
    requires c.online && c.toClient != [] && Connected(loop, c)
    ensures var d := C.DoClientRead(c); d.online ==> Connected(loop, d) && Shown(loop, d)
  {
    var message, d := c.toClient[0], C.DoClientRead(c);
    if d.online {
      assert d.toClient == c.toClient[1..];
      var read := |loop.sent| - |c.toClient|;
      assert message == MessageOf(loop.sent[read]);
      if c.managed {
        FilterEnabled(c.client.config.services, message.tunnels);
        if message.Receipt? {
          FilterEnabled(c.client.pending.value.updated.services, message.tunnels);
        }
      }
    }
  }

  lemma OwnStep(loop: P.Loop, c: C.System, step: C.Step)
    requires c.online && C.Possible(c, step) && (step.Command? || step.FileChange? || step.Disconnect?)
    requires Connected(loop, c) && Shown(loop, c)
    ensures var d := C.Do(c, step); d.online ==> Connected(loop, d) && Shown(loop, d)
  {
  }

  lemma ClientStepCoupled(server: P.System, step: C.Step, c: C.System, link: Option<nat>)
    requires C.Possible(c, step) && (step.Command? || step.FileChange? || step.ClientRead? || step.Disconnect?)
    requires Coupled(server, c, link)
    ensures var d := C.Do(c, step); Coupled(server, d, if d.online then link else None)
  {
    if c.online {
      if step.ClientRead? {
        ReadStep(server.loops[link.value], c);
      } else {
        OwnStep(server.loops[link.value], c, step);
      }
    }
  }

  // ---- Every joint run ----

  lemma LoopsKnown(s: P.System)
    requires P.SystemInv(s)
    ensures LoopsReady(s)
  {
    forall id | id in s.loops ensures s.loops[id].phase.Listening? ==> s.loops[id].sent != [] {
      assert P.LoopUpToDate(s.state, s.revision, P.SomethingInFlight(s), id, s.loops[id]);
    }
  }

  lemma StepCoupled(j: Joint, step: Step)
    requires Possible(j, step) && Coupled(j.server, j.client, j.link) && C.Matched(j.client)
    requires LoopsReady(j.server)
    ensures var k := Do(j, step); Coupled(k.server, k.client, k.link)
  {
    match step
    case Dial =>
    case GiveUp =>
    case AtServer(p) => ServerStepCoupled(j.server, p, j.client, j.link);
    case AtClient(c) => ClientStepCoupled(j.server, c, j.client, j.link);
  }

  lemma {:induction false} RunCoupled(groups: seq<(string, string)>, configs: seq<TunnelConfig>, config: C.Config, managed: bool, steps: seq<Step>)
    ensures var j := Run(Initial(groups, configs, config, managed), steps); Coupled(j.server, j.client, j.link)
  {
    var start := Initial(groups, configs, config, managed);
    if steps != [] {
      var before, last := Run(start, steps[..|steps| - 1]), steps[|steps| - 1];
      RunCoupled(groups, configs, config, managed, steps[..|steps| - 1]);
      if Possible(before, last) {
        RunSides(groups, configs, config, managed, steps[..|steps| - 1]);
        LoopsKnown(before.server);
        StepCoupled(before, last);
      }
    }
  }

  lemma RunSides(groups: seq<(string, string)>, configs: seq<TunnelConfig>, config: C.Config, managed: bool, steps: seq<Step>)
    ensures var j := Run(Initial(groups, configs, config, managed), steps);
            P.SystemInv(j.server) && C.Inv(j.client) && j.client.managed == managed
  {
    var clientSteps, serverSteps := Projects(Initial(groups, configs, config, managed), steps);
    C.Reachable(config, managed, clientSteps);
    P.InitialValid(groups, configs);
    P.RunKeeps(P.Initial(groups, configs), serverSteps);
  }

  // ---- What holds in every joint run ----

  /** What the server reads or writes on the connection always has its counterpart at the client:
      no frame is lost and none is made up. */
  lemma NothingLost(groups: seq<(string, string)>, configs: seq<TunnelConfig>, config: C.Config, managed: bool,
                    steps: seq<Step>, p: P.Step)
    requires Possible(Run(Initial(groups, configs, config, managed), steps), AtServer(p))
    ensures var j := Run(Initial(groups, configs, config, managed), steps);
            Echo(j.server, j.link, p).Some? ==> C.Possible(j.client, Echo(j.server, j.link, p).value)
  {
    RunCoupled(groups, configs, config, managed, steps);
    RunSides(groups, configs, config, managed, steps);
    var j := Run(Initial(groups, configs, config, managed), steps);
    LoopsKnown(j.server);
    ServerStepCoupled(j.server, p, j.client, j.link);
  }

  /** What a catalog shows as enabled is what the session owns. */
  lemma EnabledIsOwned(s: T.State, id: nat)
    requires T.OwnersValid(s)
    ensures C.EnabledNames(T.CatalogOf(s, id)) == T.Owned(s, id)
  {
    forall name ensures name in C.EnabledNames(T.CatalogOf(s, id)) <==> name in T.Owned(s, id) {
      if name in s.owners {
        assert T.ValidOwner(s, name, s.owners[name]);
      }
    }
  }

  /** Server and client have nothing more to say to each other. */
  predicate AtRest(j: Joint) {
    && j.client.online && j.link.Some? && j.client.toClient == []
    && P.InPhase(j.server, j.link.value, P.Listening) && j.server.loops[j.link.value].seen == j.server.revision
    && !P.SomethingInFlight(j.server)
  }

  /** Every selected service is a tunnel the session owns. */
  predicate OwnsSelection(j: Joint, id: nat) {
    forall service <- j.client.client.config.services :: service.name in T.Owned(j.server.state, id)
  }

  /**
  In every joint run, whenever server and client are at rest, a managed client's selection consists
  of tunnels its session owns if and only if the client has read a frame after the hello, or the
  hello showed everything it had declared as enabled.
  */
  lemma SelectionOwnedExactly(groups: seq<(string, string)>, configs: seq<TunnelConfig>, config: C.Config, steps: seq<Step>)
    requires AtRest(Run(Initial(groups, configs, config, true), steps))
    ensures var j := Run(Initial(groups, configs, config, true), steps);
            var sent := j.server.loops[j.link.value].sent;
            && sent != []
            && (OwnsSelection(j, j.link.value) <==> |sent| > 1 || AllEnabled(j.client.declared, sent[0].tunnels))
  {
    RunCoupled(groups, configs, config, true, steps);
    RunSides(groups, configs, config, true, steps);
    RestOwned(Run(Initial(groups, configs, config, true), steps));
  }

  lemma RestOwned(j: Joint)
    requires AtRest(j) && Coupled(j.server, j.client, j.link) && P.SystemInv(j.server) && j.client.managed
    ensures var sent := j.server.loops[j.link.value].sent;
            && sent != []
            && (OwnsSelection(j, j.link.value) <==> |sent| > 1 || AllEnabled(j.client.declared, sent[0].tunnels))
  {
    var id := j.link.value;
    var loop := j.server.loops[id];
    assert P.LoopUpToDate(j.server.state, j.server.revision, P.SomethingInFlight(j.server), id, loop);
    EnabledIsOwned(j.server.state, id);
    assert loop.sent[|loop.sent| - 1].tunnels == T.CatalogOf(j.server.state, id);
  }
}
