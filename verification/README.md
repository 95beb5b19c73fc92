# GateRust: verified models

Dafny models of the parts of GateRust whose correctness depends on interleavings, rollback and
long histories, with proofs about every run of them. `dafny verify dfyconfig.toml` checks
everything.

- **Tunnel ownership and its control protocol.** `TunnelState` has the state behind the runtime's
  lock and its operations as values, `TunnelRuntime` the object that updates it in place.
  `TunnelProtocol` interleaves those operations with the session loops, logins, credential and
  tunnel reloads, administrators and public connections, at every point where the lock is released
  or a task awaits: a mutator commits first and notifies later, a session loop marks the revision
  seen, then reads its catalog, then sends it; a login reads the group keys and registers later.
  `TunnelEffects` says what each operation does to every session, owner and catalog line,
  `TunnelSessions` what that means for clients over every run.
- **Transactional hot reload.** `Listeners` has the listener manager against an operating system
  that may refuse any bind, with its rollback; `Reload` the reload of the whole server: listeners,
  QUIC endpoint, credentials.
- **Certificate manager.** `CertificateState` has its operations as values, `CertificateManager`
  the object. `CertificateInvariant` and `CertificateSwitch` prove what each operation keeps,
  `CertificateRuns` what therefore holds in every run, `CertificateRenewal` when renewals start by
  themselves. `CertificateIndex` has the index TLS handshakes use, `CertificateRequest` what a task
  captures and when that becomes stale, `CertificateEffects` what each event does,
  `CertificateHandover` what handshakes get while a change is under way.
- **Managed client session.** `ClientSession` has the client, the server loop and the two queues
  between them, across reconnects and configuration file changes. `AttachedClient` attaches that
  client to one of the session loops of `TunnelProtocol` and shows what holds of the two together.
- **Three compact cores.** `RateLimit`, `ConnectionLimit`, and `Router` with the configuration
  checks it relies on (`ProxyConfig`, `Domains`, `Paths`).

Five results are about where the code does less than it seems to promise. Each comes with the
inputs that show it and with the exact condition under which the promise holds.

- A snapshot that drops a selected service while a service update is pending leaves the client's
  stream lookup table stale after the receipt (`OvertakenTableIsStale`, `ReceiptSyncsExactly`; with
  the server's part in it, `StaleTable`).
- A client that is not managed follows its file, but a change is lost when the connection ends
  before the server acknowledges it: the client reconnects with the old services
  (`LostFileChange`, `DisconnectLosesFileExactly`).
- A managed client drops what snapshots and receipts do not show as enabled, but does not look at
  the list in the server's hello. After a reconnect it can select, at rest, what its session does
  not own (`UnownedSelection`, `SelectionOwnedExactly`).
- `apply_config` says that the old certificate serves until it is replaced. While the index is
  rewritten, a handshake can get neither the old nor the new certificate: for instance when a
  domain moves to a certificate listed later (`MovingLaterLeavesGap`, `MovingLaterHappens`,
  `NoGapExactly`, and for every host `UninterruptedExactly`).
- A reservation whose cost exceeds 2^64 - 1 nanoseconds books less time than its bytes need and
  breaks the rate bound (`OversizedBreaksBound`, `RateBoundExactly`); nothing as small as a
  datagram does (`DatagramsUnclamped`).

## Model

| member | source | states |
|---|---|---|
| `TunnelState.RegisterKeeps` | crates/gaterust-tunnel/src/runtime.rs:354-393 | registering keeps the ownership invariant (owners configured, live and eligible; own tokens; unique devices; current keys; at most 128 sessions), steals nothing, and leaves no tunnel the new session may serve without an owner |
| `TunnelState.UpdateServicesKeeps` | crates/gaterust-tunnel/src/runtime.rs:395-428 | the same for a service update of any session; what it releases it does not take back in the same call |
| `TunnelState.ApplyTunnelsKeeps` | crates/gaterust-tunnel/src/runtime.rs:273-293 | a tunnel reload keeps the invariant and only removes owners |
| `TunnelState.ApplyCredentialsKeeps` | crates/gaterust-tunnel/src/runtime.rs:295-330 | a credential reload keeps the invariant, in particular that every session's digest is its group's current one |
| `TunnelState.RemoveSessionKeeps` | crates/gaterust-tunnel/src/runtime.rs:430-438 | leaving or being disconnected keeps the invariant and only removes owners |
| `TunnelState.DisconnectTunnelKeeps` | crates/gaterust-tunnel/src/runtime.rs:235-271 | cutting one tunnel keeps the invariant and only removes owners |
| `TunnelState.ClaimKeeps` | crates/gaterust-tunnel/src/runtime.rs:542-561 | claiming adds owners only where there were none, with tokens never used before, until nothing is left to claim |
| `TunnelState.RevokesExactly` | crates/gaterust-tunnel/src/runtime.rs:295-330 | a session is revoked if and only if its group's key changed or vanished |
| `TunnelState.SilentUpdateIsSilent` | crates/gaterust-tunnel/src/runtime.rs:395-428 | an update that does not notify changed no session, tunnel, owner or token, hence no catalog |
| `TunnelState.AnnouncedUpdateShows` | crates/gaterust-tunnel/src/runtime.rs:395-428 | an update that notifies changed the session's declarations or its tunnels |
| `TunnelState.UnrevokedReloadIsSilent` | crates/gaterust-tunnel/src/runtime.rs:295-330 | a credential reload that does not notify changed nothing but the credentials |
| `TunnelState.ApplyTunnelsTwice` | crates/gaterust-tunnel/src/runtime.rs:273-293 | applying the old tunnel list again restores everything except owners lost on the way |
| `TunnelEffects.ServiceMapExactly` | crates/gaterust-tunnel/src/runtime.rs:567-572 | the services of a session are exactly the last declaration of each name |
| `TunnelEffects.CredentialMapExactly` | crates/gaterust-tunnel/src/runtime.rs:295-300 | the digests are exactly those of the last entry of each group |
| `TunnelEffects.RegisterExactly` | crates/gaterust-tunnel/src/runtime.rs:354-393 | registration succeeds exactly with room, the current key and a free device; the session is then there as declared and owns exactly the tunnels nobody had and it may serve; others are untouched, and a refusal changes nothing |
| `TunnelEffects.RefusalsExactly` | crates/gaterust-tunnel/src/runtime.rs:354-376 | which refusal is given, in order: 128 sessions online, another key, device online |
| `TunnelEffects.UpdateServicesExactly` | crates/gaterust-tunnel/src/runtime.rs:395-428 | an update replaces the declarations of its session alone, gives up exactly what it may not serve any more and takes exactly what nobody has and it may serve |
| `TunnelEffects.ReportExactly` | crates/gaterust-tunnel/src/runtime.rs:395-428 | the report counts services, owned, won and lost tunnels, which balance, and says changed exactly if declarations or tunnels differ |
| `TunnelEffects.ApplyTunnelsExactly` | crates/gaterust-tunnel/src/runtime.rs:273-293 | an owner stays exactly if its tunnel is still configured for its group with the kind it declared; sessions stay as they are |
| `TunnelEffects.ApplyCredentialsExactly` | crates/gaterust-tunnel/src/runtime.rs:295-330 | whoever still has the right key stays with all its tunnels, everybody else is gone with theirs |
| `TunnelEffects.RemoveSessionExactly` | crates/gaterust-tunnel/src/runtime.rs:430-438 | the session is gone and owns nothing; every other session and every tunnel of another is exactly as before |
| `TunnelEffects.DeviceFreeAgain` | crates/gaterust-tunnel/src/runtime.rs:354-393 | after that its device may log in again |
| `TunnelEffects.DisconnectTunnelExactly` | crates/gaterust-tunnel/src/runtime.rs:235-271 | cutting succeeds exactly for the owner, with its token; then the tunnel is neither declared nor owned and nothing else changes; the other outcomes have their exact causes |
| `TunnelEffects.FindExactly` | crates/gaterust-tunnel/src/runtime.rs:440-450 | a tunnel is found exactly if it has an owner, and then that owner |
| `TunnelEffects.CatalogExactly` | crates/gaterust-tunnel/src/runtime.rs:452-479 | a session is shown exactly the tunnels configured for its group, with kind, port and local address, as idle, enabled or occupied exactly as owned by nobody, itself or another |
| `TunnelEffects.CatalogShowsOwnGroupOnly` | crates/gaterust-tunnel/src/runtime.rs:452-479 | states that agree on a group's tunnels and their owners give its sessions the same list |
| `TunnelEffects.LineOfConfig` | crates/gaterust-tunnel/src/config.rs:109-123 | the line of a configured tunnel: no local address for SOCKS5, the public port where no local one is given |
| `TunnelRuntimes.TunnelRuntime.Register` | crates/gaterust-tunnel/src/runtime.rs:354-393 | the in-place registration computes the value operation, with its outcomes (registered, at capacity, key changed, device already online), and notifies exactly on success |
| `TunnelRuntimes.TunnelRuntime.UpdateServices` | crates/gaterust-tunnel/src/runtime.rs:395-428 | the in-place update computes the value operation and its report, and notifies exactly when the report says changed |
| `TunnelRuntimes.TunnelRuntime.ApplyTunnels` | crates/gaterust-tunnel/src/runtime.rs:273-293 | the in-place tunnel reload computes the value operation and always notifies |
| `TunnelRuntimes.TunnelRuntime.ApplyCredentials` | crates/gaterust-tunnel/src/runtime.rs:295-330 | the in-place credential reload computes the value operation, returns the revoked sessions, notifies exactly when there are any and closes exactly their connections as revoked |
| `TunnelRuntimes.TunnelRuntime.Disconnect` | crates/gaterust-tunnel/src/runtime.rs:213-228 | removing a session computes the value operation, and notifies and closes its connection exactly when it was there |
| `TunnelRuntimes.TunnelRuntime.Unregister` | crates/gaterust-tunnel/src/runtime.rs:430-438 | the same for a session that ends by itself, without closing anything |
| `TunnelRuntimes.TunnelRuntime.Perform` | crates/gaterust-tunnel/src/runtime.rs:213-438 | whichever operation the lock admits next computes its value operation, keeps the ownership invariant, moves no tunnel between owners and reuses no token |
| `TunnelRuntimes.OperationKeeps` | crates/gaterust-tunnel/src/runtime.rs:213-438 | the same of the value operations, for all of them |
| `TunnelRuntimes.TunnelRuntime.DisconnectTunnel` | crates/gaterust-tunnel/src/runtime.rs:235-271 | cutting a tunnel computes the value operation, distinguishes its outcomes and cancels exactly the token of the ownership it ended |
| `TunnelRuntimes.TunnelRuntime.ClaimAvailable` | crates/gaterust-tunnel/src/runtime.rs:542-561 | the loop over the tunnels claims exactly those available to the session |
| `TunnelRuntimes.TunnelRuntime.RetainValidOwners` | crates/gaterust-tunnel/src/runtime.rs:510-525 | exactly the valid owners remain |
| `TunnelProtocol.StepKeeps` | crates/gaterust-tunnel/src/server/mod.rs:302-502 | every step of every task keeps the invariant of the whole system: ownership, logins, epochs, catalogs |
| `TunnelProtocol.RunKeeps` | crates/gaterust-tunnel/src/server/mod.rs:302-502 | so does every run, whatever the schedule |
| `TunnelProtocol.NoLostUpdate` | crates/gaterust-tunnel/src/server/mod.rs:436-492 | in every run, the last list a listening session loop sent is its current catalog, or its seen revision is behind, or a notification is still to come |
| `TunnelProtocol.CatchesUp` | crates/gaterust-tunnel/src/server/mod.rs:481-489 | in every run, once nothing is in flight, a loop's own next three steps make the last frame its client gets the current catalog |
| `TunnelProtocol.OwnershipHolds` | crates/gaterust-tunnel/src/runtime.rs:510-565 | in every run the ownership invariant holds |
| `TunnelProtocol.NoStepSteals` | crates/gaterust-tunnel/src/runtime.rs:510-561 | in every run no single step moves a tunnel from one owner to another or renews its token |
| `TunnelProtocol.KeysCurrent` | crates/gaterust-tunnel/src/server/mod.rs:340-371 | in every run, whoever is online presented the key its group has now, also when the login read the group list before a reload |
| `TunnelProtocol.OwnersNeverCut` | crates/gaterust-tunnel/src/runtime.rs:235-271 | in every run a current owner's token is not cancelled and not about to be |
| `TunnelProtocol.StreamsCutExactly` | crates/gaterust-tunnel/src/server/stream.rs:83-110 | in every run a public connection is cut if and only if the ownership it found was ended by `disconnect_tunnel`; its ownership is current if and only if it has not ended |
| `TunnelSessions.NobodyLingers` | crates/gaterust-tunnel/src/server/mod.rs:302-502 | in every run every session belongs to a client that logged in and whose loop still runs |
| `TunnelSessions.DepartureExactly` | crates/gaterust-tunnel/src/runtime.rs:213-228 | in every run, after a loop left or an administrator disconnected it, its session is gone, owns nothing and may log in again, and all others are exactly as before |
| `TunnelSessions.GroupOfExactly` | crates/gaterust-tunnel/src/server/mod.rs:340-350 | the group of a login is the first one that has the key presented, if any has |
| `TunnelSessions.LoginExactly` | crates/gaterust-tunnel/src/server/mod.rs:340-371 | in every run, with no reload half done, a connection logs in if and only if some group has its key, fewer than 128 sessions exist and its device is not online; its session is then of such a group, and otherwise nothing changes |
| `TunnelSessions.RunShowsCatalogs` | crates/gaterust-tunnel/src/server/mod.rs:405-489 | in every run every list ever sent was the session's catalog at some moment of the run |
| `TunnelSessions.FramesShowOwnGroup` | crates/gaterust-tunnel/src/server/mod.rs:405-489 | in every run every line of every frame is of a tunnel configured, when it was read, for the client's own group, with that tunnel's kind, port and local address |
| `TunnelSessions.OpensToOwner` | crates/gaterust-tunnel/src/server/stream.rs:83-110 | in every run a public connection is accepted exactly if the tunnel has an owner, and gets its token |
| `TunnelSessions.TunnelsFollowConfig` | crates/gaterust-tunnel/src/runtime.rs:273-293 | in every run the runtime's tunnels are exactly those of the list last applied |
| `Listeners.ListenerManager.Apply` | crates/gaterust-tunnel/src/server/mod.rs:670-689 | all or nothing: applied means exactly the new listeners with the survivors untouched; rolled back means the old configurations, runtime tunnels and limiter objects; it fails only if a wanted socket was taken, and the rollback only if somebody else took one of the old sockets |
| `Listeners.ListenerManager.ApplyOnce` | crates/gaterust-tunnel/src/server/mod.rs:691-743 | success gives exactly the wanted listeners, survivors keeping listener and limiter; failure leaves survivors and some of the wanted ones, and names a refused socket |
| `Listeners.ListenerManager.RollBack` | crates/gaterust-tunnel/src/server/mod.rs:670-689 | success restores configurations and limiter objects; failure means others held one of the old sockets during the attempts |
| `Listeners.ListenerManager.Start` | crates/gaterust-tunnel/src/server/mod.rs:827-871 | a listener starts if and only if nobody holds its socket; its limiter is reused if the rate is right |
| `Listeners.ListenerManager.Stop` | crates/gaterust-tunnel/src/server/mod.rs:759-769 | a stopped listener's socket is free again and all others are unaffected |
| `Listeners.ListenerManager.TakeOver` | crates/gaterust-tunnel/src/server/mod.rs:691-743 | running listeners take over the fields they do not depend on without touching socket or rate |
| `Listeners.OnlyUntouchedSurviveBack` | crates/gaterust-tunnel/src/server/mod.rs:799-813 | a listener that a failed change left running and the rollback keeps is the very one from before: `same_listener` cannot confuse a new one with it |
| `Listeners.SameListenerExactly` | crates/gaterust-tunnel/src/server/mod.rs:799-813 | a listener is kept exactly if nothing its task depends on changes, so every running task has the parameters configured for it (part of `Valid`) |
| `Listeners.WantedSocketFree` | crates/gaterust-tunnel/src/config.rs:276-286 | with unique binds, a configuration still to be started never conflicts with one already running |
| `Reload.Server.ReloadServer` | crates/gaterust-tunnel/src/server/mod.rs:157-213 | success installs all parts; a failure whose rollback worked is invisible (listener configurations, sockets, QUIC, runtime specs, credentials, login groups unchanged, owners only lost); even a failed rollback changes neither QUIC nor credentials nor sessions, and happens only if others took one of the old sockets; each result has its exact cause: unreadable file, endpoint that cannot be prepared, refused listener socket, failed rebind |
| `Reload.Server.Prepare` | crates/gaterust-tunnel/src/server/endpoint.rs:40-53 | succeeds if and only if the configuration is unchanged, or the TLS files load and the bind is unchanged or free; then the new socket is held beside the current one, else nothing changed |
| `Reload.Server.Switch` | crates/gaterust-tunnel/src/server/mod.rs:172-212 | after preparation: the reload's outcome for each way listeners and QUIC can fail |
| `Reload.Server.TakeBack` | crates/gaterust-tunnel/src/server/mod.rs:187-202 | when QUIC cannot switch, the previous listeners come back, sessions and credentials are untouched, and the runtime has only lost owners |
| `Reload.Server.Install` | crates/gaterust-tunnel/src/server/endpoint.rs:55-65 | the prepared endpoint replaces the current one, whose socket is released |
| `ClientSession.ManagedClient.RetainEnabledServices` | crates/gaterust-tunnel/src/client.rs:1144-1162 | exactly the selected services the server enables remain, and the table is rewritten exactly if one was dropped |
| `ClientSession.ManagedClient.BeginServiceUpdate` | crates/gaterust-tunnel/src/client.rs:812-839 | a sent update becomes the one pending request with a fresh number other than 0; a failed write restores the table |
| `ClientSession.ManagedClient.OnMessage` | crates/gaterust-tunnel/src/client.rs:674-709 | a message is accepted if and only if it is a snapshot or the receipt of the pending request |
| `ClientSession.ReceiptsMatch` | crates/gaterust-tunnel/src/client.rs:656-773 | in every run at most one update is outstanding, its number is not 0 and is the pending one, and no unexpected receipt was ever met |
| `ClientSession.NextMessageExpected` | crates/gaterust-tunnel/src/client.rs:674-709 | in every run the two error branches for receipts are unreachable |
| `ClientSession.SelectionFromCommands` | crates/gaterust-tunnel/src/client.rs:248-317 | in every run a managed client remembers only what is left of the last acknowledged user command under the present server and key, and declared at its last login only what was left of the one acknowledged then |
| `ClientSession.ReadSelectsExactly` | crates/gaterust-tunnel/src/client.rs:674-709 | in every run, after a message a managed client selects exactly what it had selected, or commanded if it is the receipt, and the message shows as enabled |
| `ClientSession.DialsWhatTheFileSays` | crates/gaterust-tunnel/src/client.rs:248-317 | in every run the client's server and key are those of the file as last read, and while online it is logged in there with that key |
| `ClientSession.IdentityChangeAdopts` | crates/gaterust-tunnel/src/client.rs:841-854 | in every run, once another server or key was read, they are the client's configuration and every login uses them, in every continuation without another file change |
| `ClientSession.UnmanagedFollowsFile` | crates/gaterust-tunnel/src/client.rs:841-854 | in every run a client that is not managed has the file's configuration when no update is pending or lost, in particular after a change while offline |
| `ClientSession.DisconnectLosesFileExactly` | crates/gaterust-tunnel/src/client.rs:656-773 | in every run, exactly when a connection ends before a differing update is acknowledged, an unmanaged client goes on without what the file says |
| `ClientSession.LostFileChange` | crates/gaterust-tunnel/src/client.rs:656-773 | for any two files with the same server and key, the run in which the client logs in again with the services of the old one |
| `ClientSession.ServiceMapExactly` | crates/gaterust-tunnel/src/client.rs:1137-1142 | streams are looked up under the last service of each name |
| `ClientSession.IdentityChangeForgets` | crates/gaterust-tunnel/src/client.rs:841-854 | in every run, after a change of server or key nothing is selected or declared in any continuation without a new user command |
| `ClientSession.TableInSync` | crates/gaterust-tunnel/src/client.rs:1144-1162 | in every run, with nothing pending and no update overtaken, the lookup table is that of the selected services |
| `ClientSession.ReceiptSyncsExactly` | crates/gaterust-tunnel/src/client.rs:674-709 | in every run a receipt leaves the table right if and only if no snapshot dropped a service during the update, or the receipt drops one itself, or both selections look alike |
| `ClientSession.OvertakenTableIsStale` | crates/gaterust-tunnel/src/client.rs:674-709 | for any two services, the run that ends with the second selected, nothing pending and an empty table |
| `AttachedClient.Projects` | crates/gaterust-tunnel/src/server/mod.rs:302-502 | in every joint run the client goes through a run of `ClientSession` and the server through a run of `TunnelProtocol`, so everything proved of either holds of the two together |
| `AttachedClient.NothingLost` | crates/gaterust-tunnel/src/server/mod.rs:436-492 | in every joint run, whatever the session loop reads or writes on the connection has its counterpart at the client: no frame is lost or made up |
| `AttachedClient.EnabledIsOwned` | crates/gaterust-tunnel/src/runtime.rs:452-479 | a session's catalog shows as enabled exactly the tunnels it owns |
| `AttachedClient.SelectionOwnedExactly` | crates/gaterust-tunnel/src/client.rs:474-486 | in every joint run, when server and client are at rest, the managed selection consists of tunnels the session owns if and only if the client has read a frame after the hello or the hello showed all it had declared as enabled |
| `AttachedRuns.UnownedSelection` | crates/gaterust-tunnel/src/client.rs:474-486 | for any service, the joint run that ends at rest with the service selected and not owned |
| `AttachedRuns.StaleTable` | crates/gaterust-tunnel/src/client.rs:674-709 | for any two services, the joint run in which a tunnel reload at the server overtakes the client's switch and leaves its lookup table empty |
| `RateLimit.Limited.Reserve` | crates/gaterust-tunnel/src/rate_limit.rs:44-57 | a reservation books its cost after the later of the clock and the earlier bookings, and is released when the booking is within the burst |
| `RateLimit.RateBound` | crates/gaterust-tunnel/src/rate_limit.rs:44-57 | for any unclamped reservations and any clock readings, bytes released in any window s to t, times 10^9, are at most rate times (t - s + max(burst, cost of the first)) |
| `RateLimit.RateBoundExactly` | crates/gaterust-tunnel/src/rate_limit.rs:44-57 | the bound holds over all windows if and only if no reservation is clamped |
| `RateLimit.OversizedBreaksBound` | crates/gaterust-tunnel/src/rate_limit.rs:44-57 | at one byte per second a reservation of 18446744074 bytes breaks the bound at the instant of its release |
| `RateLimit.CostCoversBytes` | crates/gaterust-tunnel/src/rate_limit.rs:44-57 | a reservation books the time its bytes need if and only if its cost is not clamped to 64 bits |
| `RateLimit.DatagramsUnclamped` | crates/gaterust-tunnel/src/rate_limit.rs:44-57 | sizes up to 65535 are never clamped, so the bound holds for them |
| `RateLimit.CostBound` | crates/gaterust-tunnel/src/rate_limit.rs:44-57 | the cost released in a window is at most its length plus the larger of burst and first cost |
| `RateLimit.NextIsLongestBacklog` | crates/gaterust-tunnel/src/rate_limit.rs:44-57 | the booking is exactly the longest backlog any arrival leaves: the limiter delays no more than it must |
| `RateLimit.DelayExactly` | crates/gaterust-tunnel/src/rate_limit.rs:44-57 | a reservation goes out at once exactly if all booked work ends within the burst, else exactly the burst before its end |
| `RateLimit.DelayBounded` | crates/gaterust-tunnel/src/rate_limit.rs:44-57 | no delay exceeds the work reserved so far less the burst |
| `ConnectionLimit.StepKeepsInv` | crates/gaterust-proxy/src/connection.rs:47-99 | every step of acquirers, droppers and limit changes keeps the invariant that free slots are covered by wake-ups or running acquirers |
| `ConnectionLimit.NoLostWakeUp` | crates/gaterust-proxy/src/connection.rs:61-98 | in every run, if an acquirer sleeps while a slot is free, a wake-up is under way or held, or another acquirer is running |
| `ConnectionLimit.PermitsBounded` | crates/gaterust-proxy/src/connection.rs:47-99 | in every run the counter equals the live permits and stays within the largest limit set |
| `ConnectionLimit.FixedLimitHolds` | crates/gaterust-proxy/src/connection.rs:61-91 | while the limit does not change it is never exceeded |
| `ConnectionLimit.GrantWithinLoadedMaximum` | crates/gaterust-proxy/src/connection.rs:61-91 | in every run a grant stays within the maximum its own attempt loaded |
| `ConnectionLimit.AcquiresIfFree` | crates/gaterust-proxy/src/connection.rs:61-91 | in every run an undisturbed acquirer gets a permit if a slot is free and otherwise waits |
| `ConnectionLimit.ReturnFrees` | crates/gaterust-proxy/src/connection.rs:94-99 | in every run returning a permit frees exactly one slot |
| `ConnectionLimit.LimitInForce` | crates/gaterust-proxy/src/connection.rs:56-59 | in every run the limit in force is the one last set |
| `Domains.OnlyOneSuffixMatches` | crates/gaterust-proxy/src/config.rs:488-491 | a wildcard covers a host if and only if its suffix is what follows the host's first dot (a single left-most label) |
| `Routers.Router.constructor` | crates/gaterust-proxy/src/router.rs:30-49 | the built maps list, for each host or suffix, exactly its routes, longest prefixes first |
| `Routers.Router.FindRoute` | crates/gaterust-proxy/src/router.rs:51-61 | the answer is a route the declarative rule chooses for the routes the router was built from, or none if the rule chooses none |
| `Routers.PathMatchesExactly` | crates/gaterust-proxy/src/router.rs:84-89 | prefixes match whole segments: the path's segments begin with the prefix's, and go on after them where the prefix ends with a slash |
| `Routers.FindPathLongest` | crates/gaterust-proxy/src/router.rs:77-89 | the first match in a sorted list is a longest match, and no match means none matches |
| `Routers.FindFollowsRule` | crates/gaterust-proxy/src/router.rs:51-61 | the result is a route the declarative rule chooses (longest prefix of the exact host, else of the covering wildcard), and no result means the rule chooses none |
| `Routers.ChoiceIsUnique` | crates/gaterust-proxy/src/config.rs:285-290 | on validated routes the rule chooses at most one |
| `Routers.SameAnswer` | crates/gaterust-proxy/src/router.rs:30-89 | the rule gives one answer to each request, whatever the order of the validated routes |
| `Routers.OrderIrrelevant` | crates/gaterust-proxy/src/router.rs:30-89 | any two tables of the same validated routes, in whatever order, answer every request alike |
| `Routers.SortDescending` | crates/gaterust-proxy/src/router.rs:30-49 | sorting gives a descending permutation |
| `ProxyConfigs.Validate` | crates/gaterust-proxy/src/config.rs:205-309 | a configuration is accepted if and only if its certificates and routes are valid: unique ids, names and route keys, each domain in one certificate, validation consistent with renewal, each route's certificate covering its host |
| `ProxyConfigs.CheckCertificates` | crates/gaterust-proxy/src/config.rs:256-275 | accepts exactly the valid certificates and returns the owner of each domain |
| `ProxyConfigs.CheckValidation` | crates/gaterust-proxy/src/config.rs:425-448 | accepts exactly a known DNS account, manual validation without auto-renewal, or a migration error without auto-renewal |
| `ProxyConfigs.CheckDomains` | crates/gaterust-proxy/src/config.rs:455-471 | accepts exactly domains that do not repeat and have no owner yet, and adds them |
| `ProxyConfigs.CheckRoutes` | crates/gaterust-proxy/src/config.rs:277-307 | accepts exactly routes with unique names and keys whose certificate covers their host |
| `ProxyConfigs.CertificateForHost` | crates/gaterust-proxy/src/config.rs:475-486 | the scan for the longest covering wildcard finds the owner of the host, else of the one wildcard that can cover it |
| `ProxyConfigs.DomainOwnersExact` | crates/gaterust-proxy/src/config.rs:412-472 | exactly the configured domains have an owner, namely the certificate that lists them |
| `CertificateIndex.CertificateResolver.ReplaceOwner` | crates/gaterust-proxy/src/tls.rs:47-71 | the in-place replacement computes the value operation on both maps |
| `CertificateIndex.CertificateResolver.RemoveOwner` | crates/gaterust-proxy/src/tls.rs:73-80 | removal drops exactly the owner's entries |
| `CertificateIndex.CertificateResolver.ResolverFor` | crates/gaterust-proxy/src/tls.rs:82-99 | the scan for the longest covering wildcard finds the host's entry, else that of the one wildcard that can cover it |
| `CertificateIndex.ReplaceAt` | crates/gaterust-proxy/src/tls.rs:47-71 | after a replacement a listed domain belongs to the owner, its other old entries are gone, all others are as before |
| `CertificateIndex.ChangeKeepsMatch` | crates/gaterust-proxy/src/runtime.rs:434-478 | through any change between valid configurations, whichever domains move in whichever order, the index again holds exactly the configured domains with their certificates' live holders |
| `CertificateIndex.ResolveFollowsConfig` | crates/gaterust-proxy/src/tls.rs:82-99 | for every host the handshake's choice is the certificate `certificate_for_host` assigns |
| `CertificateIndex.RouteServedItsCertificate` | crates/gaterust-proxy/src/config.rs:291-306 | a TLS route of a valid configuration is served the certificate it names |
| `CertificateHandover.ResolveAt` | crates/gaterust-proxy/src/tls.rs:82-99 | a handshake gets the host's own entry, else that of the one wildcard that covers the host |
| `CertificateHandover.ThroughExactly` | crates/gaterust-proxy/src/config.rs:475-486 | a host is served through a domain of a certificate if and only if `certificate_for_host` assigns it that certificate |
| `CertificateHandover.UninterruptedExactly` | crates/gaterust-proxy/src/runtime.rs:456-478 | for every host served before and after a change: at every moment of it a handshake gets the old or the new holder if and only if the new certificate is not installed anew, or no certificate listed before it drops or takes the domain the host was served through |
| `CertificateHandover.NoGapExactly` | crates/gaterust-proxy/src/runtime.rs:456-478 | for a host that one domain serves before and after: uninterrupted if and only if the domain stays with its certificate or moves to one listed before its old one, which remains configured |
| `CertificateHandover.MovingLaterLeavesGap` | crates/gaterust-proxy/src/runtime.rs:456-478 | when a domain moves from the first to the second of two certificates, a handshake between the two replacements gets neither the old nor the new holder |
| `CertificateHandover.MovingLaterHappens` | crates/gaterust-proxy/src/runtime.rs:456-478 | any two certificates between which a domain moves are such a case, from the index built for them |
| `CertificateRequests.ReloadsExactly` | crates/gaterust-proxy/src/runtime.rs:857-912 | a certificate is reloaded if and only if it is configured and something its tasks depend on differs from before |
| `CertificateRequests.ChangedExactly` | crates/gaterust-proxy/src/runtime.rs:888-962 | the field-by-field comparison, accounts included, is inequality of what tasks depend on; display names and auto-renewal are not part of it |
| `CertificateRequests.PreparedUpToDate` | crates/gaterust-proxy/src/runtime.rs:498-548 | a captured request says what the configuration says |
| `CertificateRequests.RejectedExactly` | crates/gaterust-proxy/src/runtime.rs:498-536 | under a valid configuration only unknown and unmigrated certificates are rejected; the account look-ups never fail |
| `CertificateManagers.CertificateManager.Turn` | crates/gaterust-proxy/src/runtime.rs:345-432 | one turn of the manager's loop, whichever branch it takes, is one event of the runs below and keeps the invariant |
| `CertificateManagers.CertificateManager.RunAll` | crates/gaterust-proxy/src/runtime.rs:345-376 | from its start the manager goes through exactly the states that the theorems about runs speak of |
| `CertificateManagers.CertificateManager.StartIssue` | crates/gaterust-proxy/src/runtime.rs:498-586 | starts a task or returns the first problem, and then changes nothing |
| `CertificateManagers.CertificateManager.StartContinue` | crates/gaterust-proxy/src/runtime.rs:588-635 | continues the pending order or returns the first problem, and then changes nothing |
| `CertificateManagers.CertificateManager.HandleTask` | crates/gaterust-proxy/src/runtime.rs:637-673 | an output nobody waits for is dropped, any other concludes its certificate's work as `CertificateEffects.OutputsConclude` says |
| `CertificateManagers.CertificateManager.Deploy` | crates/gaterust-proxy/src/runtime.rs:675-700 | installs the certificate in its holder, reports it valid with its expiry and forgets the retry state, or fails; what that means is `CertificateEffects.OutputsConclude` |
| `CertificateManagers.CertificateManager.Fail` | crates/gaterust-proxy/src/runtime.rs:702-746 | records the failure, its retry time and the status |
| `CertificateManagers.CertificateManager.ScheduleDue` | crates/gaterust-proxy/src/runtime.rs:748-792 | expires statuses, then starts every due renewal or records why not |
| `CertificateManagers.CertificateManager.CollectDue` | crates/gaterust-proxy/src/runtime.rs:768-783 | collects the due certificates in configuration order |
| `CertificateManagers.CertificateManager.ApplyConfig` | crates/gaterust-proxy/src/runtime.rs:434-496 | drops work of reloaded and removed certificates, loads and installs the new holders, forgets toggled retries, then schedules |
| `CertificateManagers.CertificateManager.LoadHolders` | crates/gaterust-proxy/src/runtime.rs:807-855 | each reloaded certificate gets a new holder and a status that follow from what the cache has |
| `CertificateInvariants.StartIssueKeeps` | crates/gaterust-proxy/src/runtime.rs:498-586 | starting keeps the invariant: phases follow active tasks and pending orders, requests are current, permits add up to four, tokens are cancelled exactly when nobody waits |
| `CertificateInvariants.StartContinueKeeps` | crates/gaterust-proxy/src/runtime.rs:588-635 | so does continuing a manual order |
| `CertificateInvariants.HandleTaskKeeps` | crates/gaterust-proxy/src/runtime.rs:637-746 | so does handling any output |
| `CertificateInvariants.PendingIsManual` | crates/gaterust-proxy/src/config.rs:425-448 | a certificate with a pending order is never auto-renewed, since manual validation excludes it |
| `CertificateInvariants.ScheduleDueKeeps` | crates/gaterust-proxy/src/runtime.rs:748-792 | so does the scheduler, also when starts are refused |
| `CertificateInvariants.DueExactly` | crates/gaterust-proxy/src/runtime.rs:768-783 | exactly the certificates that are due are collected, each once |
| `CertificateInvariants.ConcludeServes` | crates/gaterust-proxy/src/runtime.rs:637-700 | an output changes what handshakes see at most by a certificate for the requested domains in the certificate's own holder |
| `CertificateSwitch.SwitchKeeps` | crates/gaterust-proxy/src/runtime.rs:434-493 | switching between any two valid configurations keeps the invariant, index and holders included |
| `CertificateSwitch.KeptMeansSame` | crates/gaterust-proxy/src/runtime.rs:857-912 | a certificate that is neither reloaded nor removed means the same before and after |
| `CertificateSwitch.WorkAfterSwitch` | crates/gaterust-proxy/src/runtime.rs:448-454 | work on kept certificates goes on; reloaded and removed ones have none, and no retry state |
| `CertificateSwitch.ApplyConfigKeeps` | crates/gaterust-proxy/src/runtime.rs:434-496 | applying a configuration keeps the invariant and makes that configuration current |
| `CertificateRuns.RunKeepsInv` | crates/gaterust-proxy/src/runtime.rs:345-376 | every run of configurations, commands, task outputs and ticks keeps the invariant |
| `CertificateRuns.StatusesFollowWork` | crates/gaterust-proxy/src/runtime.rs:434-673 | in every run: statuses and holders exist for exactly the configured certificates; issuing or renewing if and only if active; waiting for DNS if and only if pending; never both; at most four tasks unfinished |
| `CertificateRuns.NothingStale` | crates/gaterust-proxy/src/runtime.rs:434-496 | in every run, every active task and pending order was requested under settings equal to the current ones in everything a task depends on |
| `CertificateRuns.OutputsInstallCurrentDomains` | crates/gaterust-proxy/src/runtime.rs:637-700 | in every run an output installs at most a certificate for the domains configured now, in its own holder, and the output of a cancelled task changes nothing |
| `CertificateRuns.ReportedMeansServed` | crates/gaterust-proxy/src/runtime.rs:675-700 | in every run a certificate reported valid is in its holder and is for the domains configured now |
| `CertificateRuns.HandshakesFollowConfig` | crates/gaterust-proxy/src/tls.rs:82-114 | in every run a handshake for any host gets the holder of the certificate configured for it, and a certificate found there covers the host |
| `CertificateRuns.RoutesServedTheirCertificate` | crates/gaterust-proxy/src/config.rs:291-306 | in every run a TLS route is served the certificate it names |
| `CertificateRuns.HandshakesDuringChange` | crates/gaterust-proxy/src/runtime.rs:456-478 | in every run and for every host served before and after a change to any valid configuration, the exact condition under which handshakes keep getting the old or the new holder while the index is rewritten |
| `CertificateRuns.IssueAcceptedExactly` | crates/gaterust-proxy/src/runtime.rs:498-551 | in every run an issue command starts a task if and only if the certificate is configured with a validation method and idle, and fewer than four tasks run |
| `CertificateRuns.ContinueAcceptedExactly` | crates/gaterust-proxy/src/runtime.rs:588-604 | in every run a continue command starts a task if and only if the certificate waits for DNS and fewer than four tasks run |
| `CertificateRuns.IssueRefusedExactly` | crates/gaterust-proxy/src/runtime.rs:498-551 | in every run each reason for which an issue command is refused occurs exactly for its cause, in the source's order |
| `CertificateRuns.ContinueRefusedExactly` | crates/gaterust-proxy/src/runtime.rs:588-604 | the same for a continue command |
| `CertificateEffects.OutputsConclude` | crates/gaterust-proxy/src/runtime.rs:637-746 | in every run an awaited output ends its certificate's activity: an issued certificate is installed for the domains configured now and valid until its expiry, without error or retry; an order waits with its records; a failure is reported; every other certificate is untouched |
| `CertificateEffects.IssueStarts` | crates/gaterust-proxy/src/runtime.rs:549-585 | in every run an accepted issue command starts exactly one task with a current request, reports the certificate as being issued and touches no other; a refused one changes nothing |
| `CertificateEffects.ContinueStarts` | crates/gaterust-proxy/src/runtime.rs:598-634 | in every run an accepted continue command starts exactly one task with the pending order and touches no other certificate; a refused one changes nothing |
| `CertificateEffects.FinishGivesBack` | crates/gaterust-proxy/src/runtime.rs:557-566 | in every run a task that returns gives back its permit and keeps its result for the manager |
| `CertificateEffects.LoadedStatusMeans` | crates/gaterust-proxy/src/runtime.rs:807-855 | what is reported of a certificate for each answer of the cache |
| `CertificateEffects.SwitchExactly` | crates/gaterust-proxy/src/runtime.rs:434-492 | a certificate whose settings changed is loaded anew without work or retry state; one whose settings did not is as before except that toggling renewal forgets its retry state; one that is gone is gone |
| `CertificateEffects.ApplyLoads` | crates/gaterust-proxy/src/runtime.rs:434-496 | in every run, after a configuration is applied, changed certificates have new holders filled from the cache and unchanged ones keep holder, content and expiry |
| `CertificateEffects.ScheduleExactly` | crates/gaterust-proxy/src/runtime.rs:748-792 | one pass changes nobody's certificate or expiry, leaves what is not due untouched but for its age, and attends to what is due |
| `CertificateEffects.RenewalsOnTime` | crates/gaterust-proxy/src/runtime.rs:748-792 | in every run, after every tick and new configuration: nothing expired is reported valid or failed, auto-renewed certificates within 14 days of expiry are under way, and only such renewals are started |
| `CertificateRenewal.DelayExact` | crates/gaterust-proxy/src/runtime.rs:720-735 | the retry delay is 300 * 2^min(attempts, 6) seconds; the six-hour cap never applies |
| `CertificateRenewal.EventRetry` | crates/gaterust-proxy/src/runtime.rs:434-792 | no event changes a retry state except by one more failure, or by a deployment, reload, removal or toggle |
| `CertificateRenewal.RenewalSpacing` | crates/gaterust-proxy/src/runtime.rs:702-792 | in every run with a monotone clock, after failure k in a row no renewal starts by itself for 300 * 2^min(k, 6) seconds, unless the certificate is deployed, reloaded, removed or toggled |
| `CertificateRenewal.FailuresCounted` | crates/gaterust-proxy/src/runtime.rs:720-735 | in every run failures in a row are counted one by one, from 1 after a reset |
| `CertificateRenewal.RetryNeverFarAhead` | crates/gaterust-proxy/src/runtime.rs:720-735 | in every run the next attempt is at most 19259 seconds after a clock reading the run has made |
| `CertificateRenewal.SchedulerServesExactly` | crates/gaterust-proxy/src/runtime.rs:748-792 | one pass attends to every due certificate (its renewal runs, or the refusal is recorded with a later retry) and starts or delays no other |
| `CertificateRenewal.RenewedInTime` | crates/gaterust-proxy/src/runtime.rs:748-788 | in every run, a tick within 14 days of an auto-renewed certificate's expiry leaves it with a task under way or a next attempt still ahead |
| `CertificateRenewal.ElapsedMarkedExpired` | crates/gaterust-proxy/src/runtime.rs:748-761 | after a pass of the scheduler nothing expired is reported as valid or failed |
| `CertificateRenewal.FailedOutputRecorded` | crates/gaterust-proxy/src/runtime.rs:702-735 | in every run, a failed output of an auto-renewed certificate with a known expiry is recorded, and the next attempt follows 300 * 2^min(k, 6) seconds later plus the sum of the id's bytes modulo 60 |
| `CertificateRenewal.ByteSumAdds` | crates/gaterust-proxy/src/runtime.rs:729-732 | the jitter adds up the bytes of the id |

## Left out

- ProxyConfigs.Validate: does not model listener addresses, the number and the fields of accounts, nor normalising and checking the characters of domains, hosts, names and paths; domains and hosts are taken as normalised.
- Routers.Router.constructor: does not model parsing upstream addresses, which validation has accepted before.
- CertificateManagers.CertificateManager.ApplyConfig: takes certificate ids as unique, which validation has ensured; loading from the cache is one atomic step with the rest, and what the cache has is a parameter.
- CertificateManagers.CertificateManager.Fail: times and attempt counts are unbounded, so the saturating additions never saturate.
- Published certificate snapshots, DNS credential tests, and the gates that serialise requests per account.
- Panicking certificate tasks, whose active entry would remain.
- Frames are atomic messages: a half-read frame lost when another branch of `select!` fires is not modelled.
- Revisions, generations and session ids are unbounded; only the client's request numbers wrap, as in the source.
- SHA-256 is an injective constructor, and tokens are pairs of a claim's number and a tunnel.
- Catalogs are maps by tunnel name, without the order in which they are sent.
- In the connection limit, creating and enabling the notification future are one step, and the hand-off of a wake-up by a dropped future is taken from Tokio's documentation.
- A listener whose task ends on an accept error and thereby frees its socket, and overlaps between wildcard and specific addresses.
- The proxy's own listener swap, a two-address variant of the tunnel listeners' rollback.
- Of the client attached to the server there is one; it counts as online once the hello is written, a little before it reads it.
- QUIC, TLS, ACME, PEM, Argon2 and JWT, relaying of bytes and datagrams, SOCKS5, HTTP forwarding, configuration files, user interfaces and the REST interface: input and output and foreign cryptography.
