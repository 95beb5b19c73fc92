/**
The client's control session (crates/gaterust-tunnel/src/client.rs): the services it remembers,
the table its streams are looked up in, and the request and receipt exchange with the server
loop of crates/gaterust-tunnel/src/server/mod.rs, across reconnects and file changes.
*/
module ClientSession {
  import opened Numbers
  import opened Options
  import opened TunnelConfigs
  import T = TunnelState

  datatype Service = Service(name: string, kind: Kind, target: Option<string>)

  datatype ServerAddress = ServerAddress(address: string, name: Option<string>, caCertificate: Option<string>)

  datatype Config = Config(key: string, server: ServerAddress, services: seq<Service>)

  /** Whom the client logs in to, and with which key. */
  datatype Dial = Dial(server: ServerAddress, key: string)

  datatype Pending = Pending(request: nat, updated: Config)

  /** What `run_connected` works on. */
  datatype Client = Client(config: Config, table: map<string, Service>, pending: Option<Pending>, nextRequest: nat)

  datatype Message = Snapshot(tunnels: T.Catalog) | Receipt(request: nat, tunnels: T.Catalog)

  // ---- The client's operations ----

  function ServiceMap(services: seq<Service>): map<string, Service> {
    if services == [] then map[]
    else
      var last := services[|services| - 1];
      ServiceMap(services[..|services| - 1])[last.name := last]
  }

  function Filter(services: seq<Service>, names: set<string>): seq<Service> {
    if services == [] then []
    else
      var last := services[|services| - 1];
      Filter(services[..|services| - 1], names) + if last.name in names then [last] else []
  }

  function EnabledNames(tunnels: T.Catalog): set<string> {
    set name | name in tunnels && tunnels[name].availability == T.Enabled
  }

  predicate IdentityChanged(current: Config, updated: Config) {
    current.server != updated.server || current.key != updated.key
  }

  function Reconcile(current: Config, updated: Config, managed: bool): Config {
    if !managed then updated
    else if IdentityChanged(current, updated) then updated.(services := [])
    else updated.(services := current.services)
  }

  function NextRequest(request: nat): nat {
    if request == U64_MAX then 1 else request + 1
  }

  /** Some selected service is not among the enabled tunnels. */
  predicate Drops(services: seq<Service>, tunnels: T.Catalog) {
    |Filter(services, EnabledNames(tunnels))| != |services|
  }

  function RetainEnabled(c: Client, tunnels: T.Catalog): Client {
    var kept := Filter(c.config.services, EnabledNames(tunnels));
    c.(config := c.config.(services := kept),
       table := if Drops(c.config.services, tunnels) then ServiceMap(kept) else c.table)
  }

  function BeginUpdate(c: Client, updated: Config): Client {
    c.(table := ServiceMap(updated.services),
       pending := Some(Pending(c.nextRequest, updated)),
       nextRequest := NextRequest(c.nextRequest))
  }

  /** A message the session ends on: a receipt without a request, or for another one. */
  predicate Unexpected(c: Client, message: Message) {
    message.Receipt? && (c.pending.None? || c.pending.value.request != message.request)
  }

  function Receive(c: Client, message: Message, managed: bool): Client
    requires !Unexpected(c, message)
  {
    var adopted := if message.Receipt? then c.(config := c.pending.value.updated, pending := None) else c;
    if managed then RetainEnabled(adopted, message.tunnels) else adopted
  }

  /** The same operations in place. */
  class ManagedClient {
    const managed: bool
    var config: Config
    var table: map<string, Service>
    var pending: Option<Pending>
    var nextRequest: nat

    constructor (config: Config, managed: bool)
      ensures this.managed == managed
      ensures View() == Client(config, ServiceMap(config.services), None, 1)
    {
      this.managed, this.config, pending, nextRequest := managed, config, None, 1;
      table := ServiceMap(config.services);
    }

    ghost function View(): Client
      reads this
    {
      Client(config, table, pending, nextRequest)
    }

    method RetainEnabledServices(tunnels: T.Catalog)
      modifies this`config, this`table
      ensures View() == RetainEnabled(old(View()), tunnels)
    {
      var enabled := set name | name in tunnels && tunnels[name].availability == T.Enabled;
      var previousLength := |config.services|;
      var kept := [];
      for i := 0 to |config.services|
        invariant kept == Filter(config.services[..i], enabled)
      {
        if config.services[i].name in enabled {
          kept := kept + [config.services[i]];
        }
        assert config.services[..i + 1][..i] == config.services[..i];
      }
      assert config.services[..|config.services|] == config.services;
      config := config.(services := kept);
      if |config.services| != previousLength {
        table := ServiceMap(config.services);
      }
    }

    /** `take_request_id` and `begin_service_update`; `written` says whether the frame went out. */
    method BeginServiceUpdate(updated: Config, written: bool) returns (ok: bool)
      modifies this
      ensures ok == written
      ensures ok ==> View() == BeginUpdate(old(View()), updated)
      ensures !ok ==> View() == old(View()).(table := ServiceMap(old(config.services)), nextRequest := NextRequest(old(nextRequest)))
    {
      var request := nextRequest;
      nextRequest := if nextRequest == U64_MAX then 1 else nextRequest + 1;
      table := ServiceMap(updated.services);
      if !written {
        table := ServiceMap(config.services);
        return false;
      }
      pending := Some(Pending(request, updated));
      return true;
    }

    method OnMessage(message: Message) returns (ok: bool)
      modifies this
      ensures ok <==> !Unexpected(old(View()), message)
      ensures ok ==> View() == Receive(old(View()), message, managed)
    {
      if message.Receipt? {
        if pending.None? {
          return false;
        }
        var taken := pending.value;
        pending := None;
        if taken.request != message.request {
          return false;
        }
        config := taken.updated;
      }
      if managed {
        RetainEnabledServices(message.tunnels);
      }
      return true;
    }
  }

  // ---- Client, server and the two queues between them ----

  /**
  `serving`: the request the server loop has read and not answered. `unexpected`: the client met
  a receipt it has no request for. `commanded`: the services of the last user command sent.
  `acknowledged`: those of the last command acknowledged under the present server and key.
  `overtaken`: a snapshot dropped a selected service while an update was pending, and the table
  was not written since. `declared`: what the last login declared. `remembered`: what was
  acknowledged then. `dialled`: where it went, with which key. `file`: the file as last read.
  `lost`: since then a connection ended before an update was acknowledged.
  */
  datatype System = System(
    managed: bool,
    client: Client,
    online: bool,
    toServer: seq<nat>,
    serving: Option<nat>,
    toClient: seq<Message>,
    unexpected: bool,
    commanded: seq<Service>,
    acknowledged: seq<Service>,
    overtaken: bool,
    declared: seq<Service>,
    remembered: seq<Service>,
    dialled: Option<Dial>,
    file: Config,
    lost: bool)

  datatype Step =
    | Connect
    | Disconnect
    | Command(services: seq<Service>)
    | FileChange(updated: Config)
    | ServerRead
    | ServerReply(tunnels: T.Catalog)
    | ServerSnapshot(tunnels: T.Catalog)
    | ClientRead

  function Initial(config: Config, managed: bool): System {
    var start := if managed then config.(services := []) else config;
    System(managed, Client(start, map[], None, 1), false, [], None, [], false, [], [], false, [], [], None, config, false)
  }

  predicate Possible(s: System, step: Step) {
    match step
    case Connect => !s.online
    case Disconnect => s.online
    case Command(_) => s.online && s.managed && s.client.pending.None?
    case FileChange(_) => s.client.pending.None? || !s.online
    case ServerRead => s.online && s.serving.None? && s.toServer != []
    case ServerReply(_) => s.online && s.serving.Some?
    case ServerSnapshot(_) => s.online && s.serving.None?
    case ClientRead => s.online && s.toClient != []
  }

  function Cut(s: System): System {
    s.(online := false, client := s.client.(pending := None), toServer := [], serving := None, toClient := [],
       lost := s.lost || s.client.pending.Some?)
  }

  function SendUpdate(s: System, updated: Config): System {
    s.(client := BeginUpdate(s.client, updated), toServer := s.toServer + [s.client.nextRequest], overtaken := false)
  }

  function Adopt(s: System, updated: Config): System {
    s.(client := s.client.(config := Reconcile(s.client.config, updated, s.managed)),
       acknowledged := if IdentityChanged(s.client.config, updated) then [] else s.acknowledged)
  }

  function DoFileChange(s: System, updated: Config): System {
    var read := s.(file := updated, lost := false);
    if !s.online then Adopt(read, updated)
    else if IdentityChanged(s.client.config, updated) then Cut(Adopt(read, updated))
    else if s.managed then read
    else SendUpdate(read, updated)
  }

  function DoConnect(s: System): System {
    var services := s.client.config.services;
    s.(online := true, client := Client(s.client.config, ServiceMap(services), None, 1), declared := services, remembered := s.acknowledged,
       dialled := Some(Dial(s.client.config.server, s.client.config.key)), overtaken := false)
  }

  function DoClientRead(s: System): System
    requires s.toClient != []
  {
    var message, rest := s.toClient[0], s.(toClient := s.toClient[1..]);
    if Unexpected(s.client, message) then Cut(rest).(unexpected := true)
    else
      var acquired := if message.Receipt? then s.client.pending.value.updated else s.client.config;
      rest.(client := Receive(s.client, message, s.managed),
            acknowledged := if message.Receipt? && s.managed then s.commanded else s.acknowledged,
            overtaken := if s.managed && Drops(acquired.services, message.tunnels) then s.client.pending.Some? && message.Snapshot?
                         else s.overtaken)
  }

  function Do(s: System, step: Step): System
    requires Possible(s, step)
  {
    match step
    case Connect => DoConnect(s)
    case Disconnect => Cut(s)
    case Command(services) => SendUpdate(s, s.client.config.(services := services)).(commanded := services)
    case FileChange(updated) => DoFileChange(s, updated)
    case ServerRead => s.(serving := Some(s.toServer[0]), toServer := s.toServer[1..])
    case ServerReply(tunnels) => s.(toClient := s.toClient + [Receipt(s.serving.value, tunnels)], serving := None)
    case ServerSnapshot(tunnels) => s.(toClient := s.toClient + [Snapshot(tunnels)])
    case ClientRead => DoClientRead(s)
  }

  /** Any schedule: a step that is not possible where it comes is skipped. */
  function Run(s: System, steps: seq<Step>): System
    decreases steps
  {
    if steps == [] then s
    else if Possible(s, steps[0]) then Run(Do(s, steps[0]), steps[1..])
    else Run(s, steps[1..])
  }

  // ---- Invariants ----

  /** The requests that receipts on their way to the client answer. */
  function Receipts(messages: seq<Message>): seq<nat> {
    if messages == [] then []
    else (if messages[0].Receipt? then [messages[0].request] else []) + Receipts(messages[1..])
  }

  /** All requests between being sent and being answered, oldest first. */
  function Outstanding(s: System): seq<nat> {
    Receipts(s.toClient) + (if s.serving.Some? then [s.serving.value] else []) + s.toServer
  }

  /** Exactly the pending update is outstanding. */
  predicate Matched(s: System) {
    && !s.unexpected
    && 1 <= s.client.nextRequest <= U64_MAX
    && (!s.online ==> s.client.pending.None? && s.toServer == [] && s.serving.None? && s.toClient == [])
    && (s.client.pending.Some? ==> s.client.pending.value.request != 0)
    && Outstanding(s) == if s.client.pending.Some? then [s.client.pending.value.request] else []
  }

  function Names(services: seq<Service>): set<string> {
    set service | service in services :: service.name
  }

  /** `services` is what is left of `all` after dropping some names. */
  predicate LeftOf(services: seq<Service>, all: seq<Service>) {
    services == Filter(all, Names(services))
  }

  /** A managed client selects only what the user last chose under this server and key. */
  predicate Selected(s: System) {
    && (s.client.pending.Some? ==> !IdentityChanged(s.client.config, s.client.pending.value.updated))
    && (s.managed ==>
          && LeftOf(s.client.config.services, s.acknowledged)
          && LeftOf(s.declared, s.remembered)
          && (s.client.pending.Some? ==> s.client.pending.value.updated.services == s.commanded))
  }

  /** The lookup table follows the selection, unless a pending update was overtaken. */
  predicate TableFollows(s: System) {
    && (!s.managed ==> !s.overtaken)
    && (s.online && s.client.pending.None? && !s.overtaken ==> s.client.table == ServiceMap(s.client.config.services))
    && (s.online && s.client.pending.Some? ==>
          s.client.table == ServiceMap(if s.overtaken then s.client.config.services else s.client.pending.value.updated.services))
  }

  /** The client dials the server of the file as last read, with its key. */
  predicate DialsFile(s: System) {
    && !IdentityChanged(s.client.config, s.file)
    && (s.online ==> s.dialled == Some(Dial(s.file.server, s.file.key)))
  }

  /** A client that is not managed does what the file says, once the server has acknowledged it. */
  predicate FollowsFile(s: System) {
    !s.managed ==>
      && (s.client.pending.Some? ==> s.client.pending.value.updated == s.file)
      && (s.client.pending.None? && !s.lost ==> s.client.config == s.file)
  }

  predicate Inv(s: System) {
    Matched(s) && Selected(s) && TableFollows(s) && DialsFile(s) && FollowsFile(s)
  }

  // ---- Filters ----

  lemma {:induction false} FilterTwice(services: seq<Service>, a: set<string>, b: set<string>)
    ensures Filter(Filter(services, a), b) == Filter(services, a * b)
  {
    if services != [] {
      var init, last := services[..|services| - 1], services[|services| - 1];
      FilterTwice(init, a, b);
      if last.name in a {
        assert (Filter(init, a) + [last])[..|Filter(init, a)|] == Filter(init, a);
      } else {
        assert Filter(init, a) + [] == Filter(init, a);
      }
    }
  }

  /** Only the names that occur matter. */
  lemma {:induction false} FilterDependsOnNames(services: seq<Service>, a: set<string>, b: set<string>)
    requires forall service <- services :: service.name in a <==> service.name in b
    ensures Filter(services, a) == Filter(services, b)
  {
    if services != [] {
      FilterDependsOnNames(services[..|services| - 1], a, b);
    }
  }

  lemma {:induction false} FilterMembers(services: seq<Service>, names: set<string>)
    ensures forall service :: service in Filter(services, names) <==> service in services && service.name in names
    ensures |Filter(services, names)| <= |services|
    ensures |Filter(services, names)| == |services| ==> Filter(services, names) == services
    ensures (forall service <- services :: service.name in names) ==> Filter(services, names) == services
  {
    if services != [] {
      var init, last := services[..|services| - 1], services[|services| - 1];
      FilterMembers(init, names);
      assert services == init + [last];
    }
  }

  lemma FilterIsLeft(services: seq<Service>, names: set<string>)
    ensures LeftOf(Filter(services, names), services)
  {
    FilterMembers(services, names);
    FilterDependsOnNames(services, names, Names(Filter(services, names)));
  }

  lemma LeftOfFiltered(services: seq<Service>, all: seq<Service>, names: set<string>)
    requires LeftOf(services, all)
    ensures LeftOf(Filter(services, names), all)
  {
    FilterTwice(all, Names(services), names);
    FilterIsLeft(all, Names(services) * names);
  }

  lemma {:induction false} ReceiptsAppend(messages: seq<Message>, message: Message)
    ensures Receipts(messages + [message]) == Receipts(messages) + if message.Receipt? then [message.request] else []
  {
    if messages == [] {
      assert [message][1..] == [];
    } else {
      ReceiptsAppend(messages[1..], message);
      assert (messages + [message])[1..] == messages[1..] + [message];
    }
  }

  // ---- Every step keeps the invariant ----

  lemma MatchedStep(s: System, step: Step)
    requires Matched(s) && Possible(s, step)
    ensures Matched(Do(s, step))
  {
    if step.ServerReply? || step.ServerSnapshot? || step.ServerRead? {
      MatchedServer(s, step);
    } else if step.ClientRead? {
      MatchedRead(s);
    } else {
      MatchedOwn(s, step);
    }
  }

  lemma MatchedServer(s: System, step: Step)
    requires Matched(s) && Possible(s, step) && (step.ServerReply? || step.ServerSnapshot? || step.ServerRead?)
    ensures Matched(Do(s, step))
  {
    var t := Do(s, step);
    match step
    case ServerReply(tunnels) =>
      ReceiptsAppend(s.toClient, Receipt(s.serving.value, tunnels));
      assert Outstanding(t) == Outstanding(s);
    case ServerSnapshot(tunnels) =>
      ReceiptsAppend(s.toClient, Snapshot(tunnels));
      assert Outstanding(t) == Outstanding(s);
    case ServerRead =>
      assert s.toServer == [s.toServer[0]] + s.toServer[1..];
      assert Outstanding(t) == Outstanding(s);
  }

  lemma MatchedOwn(s: System, step: Step)
    requires Matched(s) && Possible(s, step) && (step.Connect? || step.Disconnect? || step.Command? || step.FileChange?)
    ensures Matched(Do(s, step))
  {
  }

  /** The oldest outstanding request is the one the next receipt answers. */
  lemma MatchedRead(s: System)
    requires Matched(s) && s.online && s.toClient != []
    ensures !Unexpected(s.client, s.toClient[0]) && Matched(DoClientRead(s))
  {
    var rest := s.(toClient := s.toClient[1..]);
    if s.toClient[0].Receipt? {
      assert Outstanding(s) == [s.toClient[0].request] + Outstanding(rest);
      assert Outstanding(s)[0] == s.toClient[0].request;
      assert |Outstanding(rest)| == 0;
    } else {
      assert Outstanding(rest) == Outstanding(s);
    }
    if !Unexpected(s.client, s.toClient[0]) {
      assert Outstanding(DoClientRead(s)) == Outstanding(rest);
    }
  }

  lemma SelectedRead(s: System)
    requires Selected(s) && s.toClient != []
    ensures Selected(DoClientRead(s))
  {
    var message := s.toClient[0];
    if s.managed && !Unexpected(s.client, message) {
      var enabled := EnabledNames(message.tunnels);
      if message.Receipt? {
        FilterIsLeft(s.commanded, enabled);
      } else {
        LeftOfFiltered(s.client.config.services, s.acknowledged, enabled);
      }
    }
  }

  lemma SelectedStep(s: System, step: Step)
    requires Matched(s) && Selected(s) && Possible(s, step)
    ensures Selected(Do(s, step))
  {
    match step
    case ClientRead => SelectedRead(s);
    case FileChange(updated) => assert LeftOf([], []);
    case _ =>
  }

  /** Dropping a service rewrites the table; otherwise nothing changes. */
  lemma RetainFollows(c: Client, tunnels: T.Catalog)
    ensures var d := RetainEnabled(c, tunnels);
            if Drops(c.config.services, tunnels) then d.table == ServiceMap(d.config.services) else d == c
  {
    FilterMembers(c.config.services, EnabledNames(tunnels));
  }

  lemma TableRead(s: System)
    requires TableFollows(s) && s.toClient != []
    ensures TableFollows(DoClientRead(s))
  {
    var message := s.toClient[0];
    if s.managed && !Unexpected(s.client, message) {
      if message.Receipt? {
        RetainFollows(s.client.(config := s.client.pending.value.updated, pending := None), message.tunnels);
      } else {
        RetainFollows(s.client, message.tunnels);
      }
    }
  }

  lemma TableStep(s: System, step: Step)
    requires TableFollows(s) && Possible(s, step)
    ensures TableFollows(Do(s, step))
  {
    if step.ClientRead? {
      TableRead(s);
    }
  }

  lemma FileStep(s: System, step: Step)
    requires Selected(s) && DialsFile(s) && FollowsFile(s) && Possible(s, step)
    requires !s.online ==> s.client.pending.None?
    ensures DialsFile(Do(s, step)) && FollowsFile(Do(s, step))
  {
    if step.ClientRead? {
      FileRead(s);
    } else if step.FileChange? {
      FileChangeStep(s, step.updated);
    }
  }

  lemma FileChangeStep(s: System, updated: Config)
    requires DialsFile(s) && FollowsFile(s) && Possible(s, FileChange(updated))
    requires s.client.pending.None?
    ensures DialsFile(DoFileChange(s, updated)) && FollowsFile(DoFileChange(s, updated))
  {
  }

  lemma FileRead(s: System)
    requires Selected(s) && DialsFile(s) && FollowsFile(s) && s.online && s.toClient != []
    ensures DialsFile(DoClientRead(s)) && FollowsFile(DoClientRead(s))
  {
    var message := s.toClient[0];
    if !Unexpected(s.client, message) {
      ReceiveKeepsIdentity(s.client, message, s.managed);
    }
  }

  lemma ReceiveKeepsIdentity(c: Client, message: Message, managed: bool)
    requires !Unexpected(c, message)
    ensures var d := Receive(c, message, managed);
            var adopted := if message.Receipt? then c.pending.value.updated else c.config;
            && !IdentityChanged(d.config, adopted) && (!managed ==> d.config == adopted)
            && d.pending == if message.Receipt? then None else c.pending
  {
  }

  lemma StepKeeps(s: System, step: Step)
    requires Inv(s) && Possible(s, step)
    ensures Inv(Do(s, step)) && Do(s, step).managed == s.managed
  {
    FileStep(s, step);
    MatchedStep(s, step);
    SelectedStep(s, step);
    TableStep(s, step);
  }

  lemma {:induction false} RunKeeps(s: System, steps: seq<Step>)
    requires Inv(s)
    ensures Inv(Run(s, steps)) && Run(s, steps).managed == s.managed
    decreases steps
  {
    if steps != [] {
      if Possible(s, steps[0]) {
        StepKeeps(s, steps[0]);
        RunKeeps(Do(s, steps[0]), steps[1..]);
      } else {
        RunKeeps(s, steps[1..]);
      }
    }
  }

  lemma Reachable(config: Config, managed: bool, steps: seq<Step>)
    ensures Inv(Run(Initial(config, managed), steps)) && Run(Initial(config, managed), steps).managed == managed
  {
    assert LeftOf([], []);
    RunKeeps(Initial(config, managed), steps);
  }

  // ---- What holds in every run ----

  /** The client never sees a receipt it does not expect, never has two updates outstanding and
      never uses request 0, in every run. */
  lemma ReceiptsMatch(config: Config, managed: bool, steps: seq<Step>)
    ensures var s := Run(Initial(config, managed), steps);
            && !s.unexpected
            && |Outstanding(s)| <= 1
            && forall request <- Outstanding(s) ::
                 request != 0 && s.client.pending.Some? && s.client.pending.value.request == request
  {
    Reachable(config, managed, steps);
  }

  /** In particular every message that arrives is one the client has a branch for. */
  lemma NextMessageExpected(config: Config, managed: bool, steps: seq<Step>)
    requires Run(Initial(config, managed), steps).toClient != []
    ensures var s := Run(Initial(config, managed), steps);
            !Unexpected(s.client, s.toClient[0])
  {
    Reachable(config, managed, steps);
    MatchedRead(Run(Initial(config, managed), steps));
  }

  /** A managed client remembers only what is left of the last acknowledged user command under the
      present server and key, and declared at its last login only what was left of the one
      acknowledged then; the file never contributes. */
  lemma SelectionFromCommands(config: Config, steps: seq<Step>)
    ensures var s := Run(Initial(config, true), steps);
            LeftOf(s.client.config.services, s.acknowledged) && LeftOf(s.declared, s.remembered)
  {
    Reachable(config, true, steps);
  }

  /** No selection and none on its way. */
  predicate Forgotten(s: System) {
    s.managed && s.client.config.services == [] && s.acknowledged == [] && s.client.pending.None?
  }

  lemma StaysForgotten(s: System, step: Step)
    requires Forgotten(s) && Possible(s, step) && !step.Command?
    ensures Forgotten(Do(s, step))
  {
  }

  lemma {:induction false} RunStaysForgotten(s: System, steps: seq<Step>)
    requires Forgotten(s) && forall step <- steps :: !step.Command?
    ensures Forgotten(Run(s, steps))
    decreases steps
  {
    if steps != [] {
      if Possible(s, steps[0]) {
        StaysForgotten(s, steps[0]);
        RunStaysForgotten(Do(s, steps[0]), steps[1..]);
      } else {
        RunStaysForgotten(s, steps[1..]);
      }
    }
  }

  /** Once the server or the key has changed, nothing is selected in any continuation without a new
      user command, whatever is read from files or received, and every login there declares
      nothing. */
  lemma IdentityChangeForgets(config: Config, steps: seq<Step>, updated: Config, later: seq<Step>)
    requires var s := Run(Initial(config, true), steps);
             Possible(s, FileChange(updated)) && IdentityChanged(s.client.config, updated)
    requires forall step <- later :: !step.Command?
    ensures var s := Run(Initial(config, true), steps);
            var t := Run(Do(s, FileChange(updated)), later);
            t.client.config.services == [] && (Possible(t, Connect) ==> Do(t, Connect).declared == [])
  {
    Reachable(config, true, steps);
    var s := Run(Initial(config, true), steps);
    RunStaysForgotten(Do(s, FileChange(updated)), later);
  }

  /** In every run, after a message a managed client selects exactly what it had selected, or had
      commanded if the message is the receipt, and the message shows as enabled. */
  lemma ReadSelectsExactly(config: Config, steps: seq<Step>, service: Service)
    requires var s := Run(Initial(config, true), steps); s.online && s.toClient != []
    ensures var s := Run(Initial(config, true), steps);
            var message := s.toClient[0];
            service in DoClientRead(s).client.config.services <==>
              && service in (if message.Receipt? then s.commanded else s.client.config.services)
              && service.name in message.tunnels && message.tunnels[service.name].availability == T.Enabled
  {
    Reachable(config, true, steps);
    NextMessageExpected(config, true, steps);
    var s := Run(Initial(config, true), steps);
    var message := s.toClient[0];
    FilterMembers(if message.Receipt? then s.commanded else s.client.config.services, EnabledNames(message.tunnels));
  }

  /** In every run, managed or not, the client's server and key are those of the file as last read,
      and while it is online it is logged in there with that key. */
  lemma DialsWhatTheFileSays(config: Config, managed: bool, steps: seq<Step>)
    ensures var s := Run(Initial(config, managed), steps);
            && s.client.config.server == s.file.server && s.client.config.key == s.file.key
            && (s.online ==> s.dialled == Some(Dial(s.file.server, s.file.key)))
  {
    Reachable(config, managed, steps);
  }

  lemma {:induction false} FileStays(s: System, steps: seq<Step>)
    requires forall step <- steps :: !step.FileChange?
    ensures Run(s, steps).file == s.file
    decreases steps
  {
    if steps != [] {
      FileStays(if Possible(s, steps[0]) then Do(s, steps[0]) else s, steps[1..]);
    }
  }

  lemma {:induction false} RunConcat(s: System, a: seq<Step>, b: seq<Step>)
    ensures Run(s, a + b) == Run(Run(s, a), b)
    decreases a
  {
    if a == [] {
      assert a + b == b;
    } else {
      assert (a + b)[1..] == a[1..] + b && (a + b)[0] == a[0];
      RunConcat(if Possible(s, a[0]) then Do(s, a[0]) else s, a[1..], b);
    }
  }

  /** In every run, once another server or key was read from the file, the client uses those in every
      continuation without another file change: they are its configuration, and every login goes to
      that server with that key. */
  lemma IdentityChangeAdopts(config: Config, managed: bool, steps: seq<Step>, updated: Config, later: seq<Step>)
    requires var s := Run(Initial(config, managed), steps);
             Possible(s, FileChange(updated)) && IdentityChanged(s.client.config, updated)
    requires forall step <- later :: !step.FileChange?
    ensures var t := Run(Do(Run(Initial(config, managed), steps), FileChange(updated)), later);
            && t.client.config.server == updated.server && t.client.config.key == updated.key
            && (t.online ==> t.dialled == Some(Dial(updated.server, updated.key)))
            && (Possible(t, Connect) ==> Do(t, Connect).dialled == Some(Dial(updated.server, updated.key)))
  {
    var s := Run(Initial(config, managed), steps);
    var all := steps + ([FileChange(updated)] + later);
    RunConcat(Initial(config, managed), steps, [FileChange(updated)] + later);
    assert ([FileChange(updated)] + later)[1..] == later;
    DialsWhatTheFileSays(config, managed, all);
    FileStays(Do(s, FileChange(updated)), later);
  }

  /** In every run a client that is not managed has the file's configuration whenever no update is
      pending and none was lost; in particular right after a file change while it is offline. */
  lemma UnmanagedFollowsFile(config: Config, steps: seq<Step>)
    ensures var s := Run(Initial(config, false), steps);
            && (s.client.pending.None? && !s.lost ==> s.client.config == s.file)
            && forall updated: Config | Possible(s, FileChange(updated)) && !s.online ::
                 Do(s, FileChange(updated)).client.config == updated
  {
    Reachable(config, false, steps);
  }

  /** In every run, exactly when a connection ends before a differing update is acknowledged, a client
      that is not managed goes on without what the file says. */
  lemma DisconnectLosesFileExactly(config: Config, steps: seq<Step>)
    requires var s := Run(Initial(config, false), steps); s.online && !s.lost
    ensures var s := Run(Initial(config, false), steps);
            var t := Do(s, Disconnect);
            t.client.config == t.file <==> s.client.pending.None? || s.client.pending.value.updated == s.client.config
  {
    Reachable(config, false, steps);
  }

  /** For any two files with the same server and key: when the connection ends after the second was
      read and before the server answers, the client logs in again with the services of the first. */
  lemma LostFileChange(config: Config, updated: Config) returns (steps: seq<Step>)
    requires !IdentityChanged(config, updated) && config.services != updated.services
    ensures var s := Run(Initial(config, false), steps);
            s.online && s.file == updated && s.client.pending.None? && s.declared == config.services != s.file.services
  {
    steps := [Connect] + ([FileChange(updated)] + ([Disconnect] + ([Connect] + [])));
    var start := Initial(config, false);
    var a := Do(start, Connect);
    var b := Do(a, FileChange(updated));
    var c := Do(b, Disconnect);
    RunHead(start, Connect, [FileChange(updated)] + ([Disconnect] + ([Connect] + [])));
    RunHead(a, FileChange(updated), [Disconnect] + ([Connect] + []));
    RunHead(b, Disconnect, [Connect] + []);
    RunHead(c, Connect, []);
  }

  /** The last service of each name, and only those, is looked up under it. */
  lemma {:induction false} ServiceMapExactly(services: seq<Service>, name: string)
    ensures name in ServiceMap(services) <==> exists service <- services :: service.name == name
    ensures name in ServiceMap(services) ==>
              exists i | 0 <= i < |services| ::
                && services[i] == ServiceMap(services)[name] && services[i].name == name
                && forall j | i < j < |services| :: services[j].name != name
  {
    if services != [] {
      var init, last := services[..|services| - 1], services[|services| - 1];
      ServiceMapExactly(init, name);
      assert services == init + [last];
      if last.name == name {
        assert services[|init|] == last;
      } else if name in ServiceMap(services) {
        var i :| 0 <= i < |init| && init[i] == ServiceMap(init)[name] && init[i].name == name
              && forall j | i < j < |init| :: init[j].name != name;
        assert services[i] == init[i];
      }
    }
  }

  /** With nothing pending the lookup table is the selection's, unless an update was overtaken. */
  lemma TableInSync(config: Config, managed: bool, steps: seq<Step>)
    requires var s := Run(Initial(config, managed), steps);
             s.online && s.client.pending.None? && !s.overtaken
    ensures var s := Run(Initial(config, managed), steps);
            s.client.table == ServiceMap(s.client.config.services)
  {
    Reachable(config, managed, steps);
  }

  /** Exactly when a receipt leaves the table right: no snapshot dropped a service of the old
      selection while the update was pending, or the receipt itself drops one of the new
      selection, or the two selections look the same. */
  lemma ReceiptSyncsExactly(config: Config, steps: seq<Step>)
    requires var s := Run(Initial(config, true), steps);
             s.online && s.toClient != [] && s.toClient[0].Receipt?
    ensures var s := Run(Initial(config, true), steps);
            var t := DoClientRead(s);
            && s.client.pending.Some?
            && var updated := s.client.pending.value.updated.services;
               (t.client.table == ServiceMap(t.client.config.services) <==>
                  || !s.overtaken
                  || Drops(updated, s.toClient[0].tunnels)
                  || ServiceMap(s.client.config.services) == ServiceMap(updated))
  {
    Reachable(config, true, steps);
    NextMessageExpected(config, true, steps);
    var s := Run(Initial(config, true), steps);
    FilterMembers(s.client.pending.value.updated.services, EnabledNames(s.toClient[0].tunnels));
  }

  // ---- The run that leaves the table behind ----

  function Only(service: Service): T.Catalog {
    map[service.name := T.ClientTunnel(service.kind, 0, None, None, T.Enabled)]
  }

  lemma RunHead(s: System, step: Step, rest: seq<Step>)
    requires Possible(s, step)
    ensures Run(s, [step] + rest) == Run(Do(s, step), rest)
  {
    assert ([step] + rest)[1..] == rest;
  }

  /** The client as it is online with `service` selected and nothing under way. */
  predicate Settled(s: System, services: seq<Service>) {
    && s.managed && s.online && s.client.pending.None? && s.client.config.services == services
    && s.toServer == [] && s.serving.None? && s.toClient == []
  }

  lemma FilterOne(service: Service)
    ensures Filter([service], EnabledNames(Only(service))) == [service]
    ensures Filter([service], EnabledNames(map[])) == []
  {
    assert [service][..0] == [];
  }

  lemma SelectOne(s: System, service: Service, rest: seq<Step>)
    requires Settled(s, [])
    ensures var steps := [Command([service]), ServerRead, ServerReply(Only(service)), ClientRead];
            exists t :: Settled(t, [service]) && Run(s, steps + rest) == Run(t, rest)
  {
    var s1 := Do(s, Command([service]));
    var s2 := Do(s1, ServerRead);
    var s3 := Do(s2, ServerReply(Only(service)));
    FilterOne(service);
    var s4 := Do(s3, ClientRead);
    assert Settled(s4, [service]);
    var steps := [Command([service]), ServerRead, ServerReply(Only(service)), ClientRead];
    assert steps + rest == [Command([service])] + ([ServerRead] + ([ServerReply(Only(service))] + ([ClientRead] + rest)));
    RunHead(s, Command([service]), [ServerRead] + ([ServerReply(Only(service))] + ([ClientRead] + rest)));
    RunHead(s1, ServerRead, [ServerReply(Only(service))] + ([ClientRead] + rest));
    RunHead(s2, ServerReply(Only(service)), [ClientRead] + rest);
    RunHead(s3, ClientRead, rest);
  }

  /** A switch to `second` is under way and the table was emptied meanwhile. */
  predicate Emptied(s: System, second: Service) {
    && s.managed && s.online && s.client.pending.Some? && s.client.pending.value.updated.services == [second]
    && s.client.table == map[]
    && s.toServer == [s.client.pending.value.request] && s.serving.None? && s.toClient == []
  }

  lemma Overtake(s: System, first: Service, second: Service, rest: seq<Step>)
    requires Settled(s, [first])
    ensures exists t :: Emptied(t, second) && Run(s, [Command([second]), ServerSnapshot(map[]), ClientRead] + rest) == Run(t, rest)
  {
    FilterOne(first);
    var s1 := Do(s, Command([second]));
    var s2 := Do(s1, ServerSnapshot(map[]));
    var s3 := Do(s2, ClientRead);
    assert Emptied(s3, second);
    assert [Command([second]), ServerSnapshot(map[]), ClientRead] + rest
        == [Command([second])] + ([ServerSnapshot(map[])] + ([ClientRead] + rest));
    RunHead(s, Command([second]), [ServerSnapshot(map[])] + ([ClientRead] + rest));
    RunHead(s1, ServerSnapshot(map[]), [ClientRead] + rest);
    RunHead(s2, ClientRead, rest);
  }

  lemma Acknowledge(s: System, second: Service)
    requires Emptied(s, second)
    ensures var t := Run(s, [ServerRead, ServerReply(Only(second)), ClientRead]);
            Settled(t, [second]) && t.client.table == map[]
  {
    FilterOne(second);
    var s1 := Do(s, ServerRead);
    var s2 := Do(s1, ServerReply(Only(second)));
    var s3 := Do(s2, ClientRead);
    assert Settled(s3, [second]) && s3.client.table == map[];
    assert [ServerRead, ServerReply(Only(second)), ClientRead] == [ServerRead] + ([ServerReply(Only(second))] + ([ClientRead] + []));
    RunHead(s, ServerRead, [ServerReply(Only(second))] + ([ClientRead] + []));
    RunHead(s1, ServerReply(Only(second)), [ClientRead] + []);
    RunHead(s2, ClientRead, []);
  }

  lemma SwitchOvertaken(s: System, first: Service, second: Service, overtake: seq<Step>, acknowledge: seq<Step>)
    requires Settled(s, [first])
    requires acknowledge == [ServerRead, ServerReply(Only(second)), ClientRead]
    requires overtake == [Command([second]), ServerSnapshot(map[]), ClientRead] + acknowledge
    ensures Settled(Run(s, overtake), [second]) && Run(s, overtake).client.table == map[]
  {
    Overtake(s, first, second, acknowledge);
    var t :| Emptied(t, second) && Run(s, overtake) == Run(t, acknowledge);
    Acknowledge(t, second);
  }

  /** For any two services: when the first is taken offline by the server while the switch to the
      second is pending, the client ends with the second selected and an empty lookup table. */
  lemma OvertakenTableIsStale(config: Config, first: Service, second: Service) returns (steps: seq<Step>)
    ensures var s := Run(Initial(config, true), steps);
            && s.online && s.client.pending.None? && s.client.config.services == [second]
            && s.client.table == map[] != ServiceMap([second])
  {
    var acknowledge := [ServerRead, ServerReply(Only(second)), ClientRead];
    var overtake := [Command([second]), ServerSnapshot(map[]), ClientRead] + acknowledge;
    var select := [Command([first]), ServerRead, ServerReply(Only(first)), ClientRead] + overtake;
    var start := Initial(config, true);
    steps := [Connect] + select;
    RunHead(start, Connect, select);
    SelectOne(Do(start, Connect), first, overtake);
    var t :| Settled(t, [first]) && Run(Do(start, Connect), select) == Run(t, overtake);
    SwitchOvertaken(t, first, second, overtake, acknowledge);
    assert second.name in ServiceMap([second]);
  }
}
