# proxysim: a verified model

proxysim is an intercepting HTTP(S) proxy for the iOS simulator. It takes over the macOS system proxy and promises to
give it back, mints a certificate per host, decides per connection whether to decrypt or to tunnel, and shows what it
saw in the console and in a browser tab. This project models the protocols and algorithms behind those promises and
proves what they keep, over every run and every input.

`dafny verify dfyconfig.toml` checks the whole project.

## How the model is built

Two forms are used throughout.

*Interleaving* is modelled on values. A state machine has one label per atomic step of the source (a locked section,
one non-blocking send, one read of an atomic pointer); `IsRun` says which label sequences can happen, `After` says
where they lead, and the main results quantify over all runs. `HubMachine`, `LeafCache`, `Connect` / `ConnectRuns` and
`AsyncSink` have this form.

*Objects* are modelled as classes with the source's fields. Their methods do the steps in the source's order, loops
included, and are proved equal to (or, for the Server, to emit exactly what) the specification functions say. The lemmas
are about those functions, and say in the system's own terms (numbers, names, texts, what is left behind) what they give.
That all that the Server does with a CONNECT is a run of the connection machine is `ServerRuns.HandlingIsARun`.

Whatever can go wrong outside the process is an input: a tape of outcomes (`SysProxy.World`, `Authority.Disk`) says how
each external step ends, successfully, with an error, or with the process gone, and how much of the step had happened.
Quantifying over tapes quantifies over every failure and every crash point.

| file | models |
|---|---|
| SysProxy, Takeover, TakeoverFaults, Manager, Reports | the system-proxy takeover: snapshot, persist, set, serve, restore, clear, and recovery on the next start |
| Networksetup | the parsers of `route` and `networksetup` output |
| Connect, ConnectRuns, ConnectFlows, ConnectTalks, ConnectChecks, ConnectGates, ServerClass, ServerRuns, Origin, HostPort | the origin filter, the tunnel-or-intercept decision, learned hosts, flow emission |
| LeafCache | the double-checked leaf certificate cache |
| Hub, HubClass, Tab | the UI hub's ring, per-browser queues and drop counters, and the browser's list |
| AsyncSink | the bounded channel with a background drainer |
| Authority | generating, persisting and reloading the root CA |
| Decode, Capture, HopByHop | content decoding, the capped tee, hop-by-hop stripping |
| Shell, Units | the copied curl command as a shell reads it; the two byte-size scalers |
| Text, Wrappers | the `strings` functions used above; Option |

## What is false of the code, and exactly when it holds

- Restoring is not verbatim. specs/010-frictionless-launch.md:101-104 says that all of enabled, host and port come back.
  The code re-sets host and port only if a host was captured (internal/sysproxy/sysproxy.go:391-396), so with no host
  captured the address of the proxy (127.0.0.1) stays stored and only the switch comes back: `NeverSetIsNotRestored` is
  the machine that never had a proxy. `RestoredVerbatimExactlyWhenHostsStored` proves that an undisturbed process leaves
  the machine as it was if and only if both proxies of the primary service had a host stored, and
  `EffectRestoredExactlyWhenEnabledHaveHosts` that traffic goes where it went if and only if every enabled one had.
- A Recover that fails does not stop main (main.go:156-160): Apply goes on, and may overwrite the snapshot that Recover
  could not use. `IgnoredRecoverErrorStrandsUser` is a history of three processes after which the user's proxies point at
  proxysim for good. `ApplyIsSafeExactlyWhenDisposable` proves that going on is safe, whatever happens to its steps, if
  and only if the service named by the remaining snapshot already is as the snapshot says. The harm is done by the write
  of the new snapshot: `PersistIsSafeExactlyWhenDisposable` proves that one particular write is safe if and only if it
  does nothing to the file or the old snapshot is disposable. (Recover and Apply share one 30-second context,
  main.go:152-160, so a Recover that times out leaves an Apply that fails at its first command and writes nothing:
  `TimedOutRecoverIsHarmless`.)
- Apply drops the snapshot even when its rollback failed (internal/sysproxy/sysproxy.go:120-125), although
  specs/010-frictionless-launch.md:72 has it deleted only after a successful restore. (The rollback runs under the same
  context as the command that failed, so a timeout makes both fail.) `RollbackIsSafeExactlyWhenInert` proves that this is
  safe, whatever happens to the rollback's steps, if and only if there is nothing left to undo and neither captured proxy
  is switched off with a host stored; `MishapLosesSettings` names a failing command for every other case.
  `RollbackIsSafeExactlyWhenUndoHolds` proves that one particular rollback is safe if and only if it reports no error, or
  leaves the settings as captured, or does not get to remove the snapshot.
- Taking over the system proxy does not keep the host's traffic from being decrypted.
  specs/010-frictionless-launch.md:90-91 states it as an invariant, and main starts the filter at simulator-only
  (main.go:208-229), but the tab's choice of everything (internal/ui/app/app.js:393) sets a filter that narrows nothing.
  `EverythingShowsHost` shows a host process's connection decrypted after that choice, from any state.
  `HostIsNeverDecrypted` proves that it takes that choice, before the connection's gate, and
  `OnlySimulatorExactlyWhenActive` that a filter lets through simulator processes alone if and only if it is active.
- A captured exchange need not leave a flow. Go's transport passes on any three-digit status, and WriteHeader panics on
  one below 100 (internal/proxy/server.go:260), which the HTTP server recovers by closing the connection:
  `StatusBelow100ShowsNothing`. `PlainRequestShowsOneFlow` proves that a plain request leaves exactly one flow if and only
  if it was let through and its status can be relayed.
- A browser need not receive flows in emission order. `ConcurrentEmitsMayReorder` shows that two Emits at once can
  always be interleaved so that a connected browser gets the later flow first. `OrderIsKeptExactlyWhenServed` proves, at
  any Emit of any run, that order is kept in every interleaving up to the next Emit if and only if it was kept so far
  and no Emit under way still owes a connected browser a flow.
- A raw deflate body can be read as zlib, which the code tries first. `OtherPaddingIsMisread` gives valid streams, one
  stored block whose padding bits are not zero, for which nothing at all is shown. `BareDeflateIsReadExactlyWhen` proves
  that a raw body is decoded to what it stands for if and only if it fails the zlib check or happens to read the same as
  zlib, which `BareDeflateIsReadExactlyWhenNotZlib` turns into a condition on the bytes: those after the zlib header are
  themselves DEFLATE for the same body, followed by its checksum. With zero padding a raw body always fails the check
  (`BareDeflateIsNotZlib`).
- The copied curl command does not quote the method, and a method may be any token. `CurlIsReadBack` proves that the
  command is read back if and only if no character of the method is special to the shell and the first is not one that is
  special there: A&B, A$B and #A break it, A%B and A#B do not. (Quotes, operators and backquotes change the words. What `*`
  and `$` stand for depends on the directory and the environment, so a method with one of them is not counted as read
  back.)

## Hypotheses of the takeover theorem

`RecoveryAfterAnyHistory` starts on a machine with no pending snapshot and allows any sequence of processes on any
primary services, each with any tape, and of the user setting, adding and removing services in between. A process is
permitted (`Benign`) if neither of the two discarded errors does harm in it: should Recover report an error and Apply get
as far as to touch the snapshot, the snapshot is disposable in the sense above; and should a rollback report an error and
the snapshot then be removed, the settings are as captured all the same. At the step where the harm would be done, each
condition is necessary as well as sufficient (`PersistIsSafeExactlyWhenDisposable`, `RollbackIsSafeExactlyWhenUndoHolds`).
`CrashesAloneAreBenign` shows that crashes at any step never need either, `WithoutRightsNothingIsLost` that a user without
administrator rights, whose every setting command is refused, does not, and `TimedOutRecoverIsHarmless` that a deadline
that passes during Recover does not. The user is taken not to change a service while a snapshot names it.

## Model

| member | source | states |
|---|---|---|
| Takeover.RecoveryAfterAnyHistory | internal/sysproxy/sysproxy.go:99-184 | after any permitted history of processes and user changes (services set, added and removed), an undisturbed Recover gives every service back as the user last wanted it, and every enabled proxy with a host leads where it did |
| Takeover.EveryRunKeepsPromise | main.go:151-174 | any number of processes, each ending at any step: every service is as the user left it, or the snapshot file names it and holds the truth about it |
| Takeover.SessionKeepsPromise | main.go:151-174 | one process (Recover, Apply whether or not that failed, serve, restore), ending anywhere, keeps the promise |
| Takeover.TakeOverKeepsPromise | internal/sysproxy/sysproxy.go:114-132 | persist before set: at every step of persisting, setting and rolling back, the promise stands, a torn snapshot included (that a failed set is rolled back is the next row) |
| TakeoverFaults.FailedTakeOverIsUndone | internal/sysproxy/sysproxy.go:120-125 | either set command failing, whatever it still did, with nothing else going wrong: Apply declines, both proxies are as captured, as far as that can be restored, no other service changes, and the snapshot is gone |
| TakeoverFaults.FailedApplyIsUndone | internal/sysproxy/sysproxy.go:95-133 | any one of Apply's seven steps failing: it declines, every service is as it was, and the snapshot is gone, or untouched, or says what is so |
| TakeoverFaults.OneFaultIsHarmless | main.go:151-174 | a whole process in which one step fails before it serves leaves every service as it was, as far as that can be restored, and no snapshot that is still needed |
| TakeoverFaults.TakeoverIsWhole | internal/sysproxy/sysproxy.go:99-133 | however its steps end, an Apply that reports success has both proxies of the primary service at 127.0.0.1 and the port, nothing else changed, and what was there in the snapshot; without a primary service nothing is touched |
| Takeover.ApplyKeepsPromise | internal/sysproxy/sysproxy.go:99-133 | Apply keeps the promise from any state if it does not touch the snapshot or the snapshot is disposable, and a takeover leaves the snapshot of what was there |
| Takeover.RecoverKeepsPromise | internal/sysproxy/sysproxy.go:139-154 | Recover keeps the promise however it ends; success means everything is back and no snapshot is left |
| Takeover.RecoverHeals | internal/sysproxy/sysproxy.go:139-154 | with no trouble, Recover gives everything back; it reports an error exactly for a torn snapshot, which was never needed |
| Takeover.CrashesAloneAreBenign | internal/sysproxy/sysproxy.go:99-184 | a process in which steps crash but none reports an error is always permitted and keeps the promise |
| Takeover.WithoutRightsNothingIsLost | internal/sysproxy/sysproxy.go:368-377 | a process whose setting commands are all refused without effect, the rollback's too, is permitted, keeps the promise and changes no service |
| Takeover.RollbackKeepsPromise | internal/sysproxy/sysproxy.go:120-125 | a rollback that reports no error, or leaves the settings as captured, or does not get to remove the snapshot, keeps the promise |
| Takeover.RollbackIsSafeExactlyWhenUndoHolds | internal/sysproxy/sysproxy.go:120-125 | one particular rollback is safe for every user, if and only if it is one of those |
| Takeover.TimedOutRecoverIsHarmless | main.go:152-160 | a process whose Recover fails and whose next command fails at once is permitted and changes nothing that Recover has not |
| Takeover.RestoreIsAbsorbing | internal/sysproxy/sysproxy.go:379-405 | from any state, a restore that succeeds leaves exactly the captured setting where a host was captured and exactly the captured switch where none was; no other service and not the snapshot change |
| Takeover.RestoredVerbatimExactlyWhenHostsStored | internal/sysproxy/sysproxy.go:379-405 | an undisturbed process (Recover, Apply, serve, restore) leaves every service exactly as it was, if and only if both proxies of the primary service had a host stored |
| Takeover.EffectRestoredExactlyWhenEnabledHaveHosts | internal/sysproxy/sysproxy.go:390-405 | it leaves traffic going where it went, if and only if every enabled proxy had a host stored |
| Takeover.NeverSetIsNotRestored | internal/sysproxy/sysproxy.go:391-396 | on a machine that never had a proxy it leaves 127.0.0.1 and the port stored, switched off |
| Takeover.ApplyIsSafeExactlyWhenDisposable | main.go:156-160 | going on after a failed Recover is safe for all users and all failures, if and only if nothing would be lost with the old snapshot |
| Takeover.PersistIsSafeExactlyWhenDisposable | internal/sysproxy/sysproxy.go:186-197 | one particular write of the new snapshot is safe for every user, if and only if it does nothing to the file or nothing would be lost with the old snapshot |
| Takeover.IgnoredRecoverErrorStrandsUser | main.go:156-160 | a history in which the ignored error leaves every proxy pointing at proxysim with no snapshot |
| Takeover.RollbackIsSafeExactlyWhenInert | internal/sysproxy/sysproxy.go:120-125 | dropping the snapshot after any rollback is safe, if and only if undoing changes nothing and cannot on the way |
| Takeover.MishapLosesSettings | internal/sysproxy/sysproxy.go:120-125 | in every other case a single failing command loses the captured settings |
| Takeover.RestoreRunsOnce | internal/sysproxy/sysproxy.go:167-184 | any number of calls of the restore closure have together the effect of one |
| Takeover.UndisturbedApply | internal/sysproxy/sysproxy.go:99-133 | with no trouble, Apply points both proxies of the primary service at 127.0.0.1 and the port, and saves what was there |
| ManagerClass.Manager.RestoreSetting | internal/sysproxy/sysproxy.go:390-405 | the two commands, the first only for a stored host, do what the specification says |
| ManagerClass.Manager.RestoreConfig | internal/sysproxy/sysproxy.go:383-388 | secure first, then web, stopping at the first error |
| ManagerClass.Manager.PointAtProxysim | internal/sysproxy/sysproxy.go:357-366 | the two set commands, stopping at the first error |
| ManagerClass.Manager.PrimaryService | internal/sysproxy/sysproxy.go:225-246 | two commands, the second only if there is a route, and what the parsers make of their answers |
| ManagerClass.Manager.GetSetting | internal/sysproxy/sysproxy.go:317-323 | the printed report, parsed, is the setting that the service has |
| ManagerClass.Manager.Snapshot | internal/sysproxy/sysproxy.go:225-314 | from the texts that the four commands print, the primary service's settings, or why not |
| ManagerClass.Manager.TakeOver | internal/sysproxy/sysproxy.go:114-132 | persist, set, and on failure roll back and clear; the service is recorded exactly on success |
| ManagerClass.Manager.Apply | internal/sysproxy/sysproxy.go:99-133 | the step sequence of Apply, from the printed texts on, refines the specification |
| ManagerClass.Manager.Recover | internal/sysproxy/sysproxy.go:139-154 | the step sequence of Recover refines the specification |
| ManagerClass.Manager.Restore | internal/sysproxy/sysproxy.go:167-184 | the closure's flag, restore and clear refine the specification |
| ManagerClass.RunProcess | main.go:151-174 | one process with the system proxy, as main sequences it and reading what networksetup prints, refines Session, and leaves only settings that can be printed |
| Reports.SessionKeepsPrintable | main.go:151-174 | however a process ends, the settings and the snapshot it leaves can be printed and so read back by the next |
| Networksetup.ParseProxySetting | internal/sysproxy/sysproxy.go:331-351 | the line loop computes the meaning of the report |
| Networksetup.ReportRoundTrip | internal/sysproxy/sysproxy.go:325-351 | parsing the printed report of a setting gives it back, if and only if the host is trimmed and on one line and the port is an int; colons in hosts are fine |
| Networksetup.ReportIsLastWord | internal/sysproxy/sysproxy.go:331-351 | any text at all is read by the last line for each field: what follows the first colon, trimmed; Yes in any case; a port that is no number is passed over; a field without a line is off, empty or 0 |
| Networksetup.ItoaIsRead | internal/sysproxy/sysproxy.go:345-347 | a printed number is read back, for exactly the 64-bit ints |
| Networksetup.ParseDefaultInterface | internal/sysproxy/sysproxy.go:248-260 | the line loop finds the first interface line with a name |
| Networksetup.DefaultRouteIsRead | internal/sysproxy/sysproxy.go:248-260 | whatever `route` prints around it, its first interface line gives the interface |
| Networksetup.FirstInterfaceIsNamed | internal/sysproxy/sysproxy.go:248-260 | for any text the answer is what the first line that names an interface says, and there is none if and only if no line names one |
| Networksetup.PrimaryIsRead | internal/sysproxy/sysproxy.go:225-246 | from both printed reports to the service: the first block with the default route's device, or none |
| Networksetup.NoInterfaceMeansNoRoute | internal/sysproxy/sysproxy.go:225-260 | there is no route, whatever the service order says, if and only if no line of the route report names an interface |
| Networksetup.ServiceForInterface | internal/sysproxy/sysproxy.go:267-283 | the line loop computes the search below |
| Networksetup.ServiceIsFirstPaired | internal/sysproxy/sysproxy.go:262-283 | for any text: the answer is the name on the one header of the first line for that device under a named header, never across a blank line or another header; no answer means no such line |
| Networksetup.ServiceOrderIsRead | internal/sysproxy/sysproxy.go:262-301 | on a printed service order the answer is the full name, spaces and ") " included, of the first block with that device |
| Networksetup.PaddingIsIgnored | internal/sysproxy/sysproxy.go:269-270 | space and carriage returns around the lines change nothing |
| Connect.EmissionIsExact | internal/proxy/connect.go:72-185 | in every interleaving, the flows emitted for an ended connection are in order exactly those its history calls for: one per exchange that is not aborted, failed dial, finished tunnel or refused handshake, none if filtered out |
| Connect.StepKeepsFlows | internal/proxy/server.go:198-284 | at every moment the flows emitted plus the one on its way are those called for so far, for every connection at once |
| ConnectFlows.OneKindOfFlow | internal/proxy/connect.go:72-185 | at every moment of every run a connection has shown only intercepted flows, or at most one; and none if the filter turned it away |
| ConnectFlows.RefusalShowsOneFlow | internal/proxy/connect.go:89-97 | a refused interception shows exactly one flow, un-intercepted, for the CONNECT target, with the reason |
| ConnectFlows.TunnelShowsOneFlow | internal/proxy/connect.go:137-171 | an ended tunnel has shown one un-intercepted flow, with the reason if the dial failed, none if the client was lost before, and none if the filter turned it away |
| ConnectTalks.DecryptedRequestsAreShown | internal/proxy/connect.go:105-130 | an ended decrypted CONNECT, in any interleaving, has shown exactly one intercepted flow per request, in order, for its Host or else the CONNECT target, with the stage and text of what went wrong; only a last response with a status below 100 or above 999 goes unshown |
| ConnectFlows.ExchangeIsTold | internal/proxy/server.go:235-284 | an exchange calls for one flow that tells host, stage and error on each of the four paths, and for none if and only if its status is below 100 or above 999 |
| ConnectFlows.PlainRequestShowsOneFlow | internal/proxy/server.go:151-164 | a plain request shows exactly one intercepted flow, with the stage and text of its error if any, if and only if the filter let it through and its status is none below 100 or above 999; otherwise none |
| ConnectFlows.StatusBelow100ShowsNothing | internal/proxy/server.go:257-272 | a captured exchange with an upstream that answers 099 shows no flow |
| ConnectRuns.FlowIdsAreDistinct | internal/flow/flow.go:54-60 | no two flows ever emitted share an id |
| ConnectRuns.LearnedHostsAreTunnelled | internal/proxy/connect.go:41-67 | learned hosts stay learned, and a connection checked after its host was learned, on any port, is never read in the clear and never refuses |
| ConnectChecks.TunnelledExactlyWhen | internal/proxy/connect.go:41-67 | in any run a checked CONNECT is tunnelled if and only if there is no authority, or its host is an excluded one or a name below it, or an earlier refusal of it is on record |
| ConnectChecks.ExcludedAreLeftAlone | internal/proxy/connect.go:44-53 | a CONNECT to an excluded domain, or any without an authority, is never read in the clear and never refuses |
| ConnectGates.InterceptionsWereAllowed | internal/proxy/server.go:170-191 | every flow read inside a CONNECT and every refusal was let through by the filter in force at its connection's one gate: the last set before it, or the one at the start, whatever is set later |
| ConnectGates.OnlyWantedAreDecrypted | internal/proxy/server.go:170-191 | whatever flags or choices that filter was built from, they ask for the connection's process: one of the named apps in the simulator, else any simulator process if so asked, else everything |
| ConnectGates.RunKeepsGates | internal/origin/origin.go:85-98 | each connection passes one gate, and the verdict logged there is about the filter then in force |
| ConnectGates.HostIsNeverDecrypted | main.go:203-231 | with the filter that a takeover starts with, only simulator processes are read in the clear or offered a certificate, unless everything was chosen before their gate |
| ConnectGates.EverythingShowsHost | internal/ui/app/app.js:389-396 | after that choice a host process can be decrypted, from any state |
| ConnectGates.OnlySimulatorExactlyWhenActive | internal/origin/origin.go:60-64 | a filter lets through simulator processes alone, if and only if it is active |
| ConnectRuns.RefusalsAreBounded | internal/proxy/connect.go:54-97 | refusals of a host come from distinct connections whose check preceded the first learning of it, so there are no more refusals than those |
| ConnectRuns.OneRefusalPerHost | internal/proxy/connect.go:88-97 | if connections do not overlap, a host is refused at most once |
| ServerClass.Server.ShouldTunnel | internal/proxy/connect.go:44-58 | the suffix loop and the learned lookup decide as specified |
| ServerClass.Server.Forward | internal/proxy/server.go:198-284 | one flow if captured, with the right error, on the four paths that complete; none otherwise, and none if the status cannot be relayed; an id is used either way |
| ServerClass.Server.Tunnel | internal/proxy/connect.go:137-171 | what happens and the at most one un-intercepted flow, by path |
| ServerClass.Server.Intercept | internal/proxy/connect.go:72-100 | the flows called for, and the host learned exactly when the client refuses |
| ServerClass.Server.ServeDecrypted | internal/proxy/connect.go:105-130 | one intercepted flow per request, in order, for the Host header or else the CONNECT target, up to an aborted exchange, which closes the connection |
| ServerClass.Server.HandleConnect | internal/proxy/connect.go:23-39 | a CONNECT from start to end emits exactly what its history calls for, learns exactly on refusal, attempts a handshake exactly if allowed, not to be tunnelled, and answerable, and copies bytes exactly if tunnelled and hijacking, dialling and answering work |
| ServerRuns.HandlingIsARun | internal/proxy/connect.go:23-39 | all that the Server does with a CONNECT, for any fate of it, the connection machine can do from the same state, with the same history and learning the same |
| ServerClass.OnlyLastAborts | internal/proxy/connect.go:105-130 | the exchanges that take place are all of them, or all up to the first that is aborted |
| ConnectTalks.ExchangesCallForAnswers | internal/proxy/connect.go:105-130 | serving a list of requests calls for exactly their answers |
| Origin.BuildFilter | internal/origin/origin.go:46-58 | the loop collects the trimmed non-empty ids, and any id implies simulator-only |
| Origin.FastPathAgrees | internal/origin/origin.go:60-64 | skipping the lookup never changes a verdict, and a filter is inactive if and only if it turns nobody away |
| Origin.VerdictIsAsWanted | internal/origin/origin.go:100-112 | from the flags to the verdict: with an app named, one of those apps in the simulator; else the simulator, if so asked; else everything; a process that cannot be resolved only if everything |
| Origin.FilterRoundTrip | internal/ui/hub.go:262-286 | a filter sent to the browser and sent back is the same filter |
| HostPort.PortIsStripped | internal/proxy/connect.go:213-218 | a name with a port and the name alone have the same host |
| HostPort.BracketsAreStripped | internal/ca/leaf.go:117-122 | so do a bracketed IPv6 address with a port and the bare address |
| HostPort.HostIsReadExactly | internal/proxy/connect.go:213-218 | any target at all: the host is what stands before the port in host:port or [host]:port with no other colon or bracket out of place, and a target of neither form is its own host |
| LeafCache.AnswersAreSequential | internal/ca/leaf.go:26-51 | in every interleaving the answers are those of a sequential memo table, and the cache is that table |
| LeafCache.OneCertificatePerHost | internal/ca/leaf.go:18-51 | all calls that ever succeed for one key return one certificate, minted for that key |
| LeafCache.LaterCallsDoNotMint | internal/ca/leaf.go:29-34 | once a host is cached, in any interleaving, calls that begin later return its certificate without minting |
| LeafCache.UndisturbedCall | internal/ca/leaf.go:26-51 | a call that nobody disturbs returns what is cached, or mints, caches and returns, or fails and changes nothing |
| LeafCache.KeyIsStrippedHost | internal/ca/leaf.go:26-27 | the key of a call, throughout, is the host it was made for without its port |
| LeafCache.RunKeepsInv | internal/ca/leaf.go:42-51 | no run replaces or removes a cache entry |
| LeafCache.Authority.Leaf | internal/ca/leaf.go:26-51 | one call against anything that others store meanwhile: earlier entries win, and the result is what the cache then holds |
| HubMachine.ClientAccounting | internal/ui/hub.go:91-119 | in every interleaving of emitters, browsers and handlers: finished sends = received + queued + dropped, queues are bounded, nothing is sent or received twice, and every flow emitted while connected is sent exactly once |
| HubMachine.NoticesAreHonest | internal/ui/hub.go:319-336 | before a flow is written the tab has been told the client's shed count at that write, and notices only grow |
| HubMachine.ShedOnlyWhenFull | internal/ui/hub.go:112-118 | a step sheds a flow for a client exactly when it is a send to that client finding 256 flows waiting |
| HubMachine.EmitNeverBlocks | internal/ui/hub.go:91-119 | from any point of any run an Emit can finish by its own steps, one per remaining target |
| HubMachine.DeliveryInEmissionOrder | internal/ui/hub.go:91-119 | if every Emit begins when those before it owe connected browsers nothing, every browser receives in emission order |
| HubMachine.OneAtATimeServes | internal/ui/hub.go:91-119 | with one Emit at a time that is so |
| HubMachine.OrderIsKeptExactlyWhenServed | internal/ui/hub.go:99-118 | at any Emit of any run: order is kept for every connected browser in every interleaving up to the next Emit, if and only if it was kept so far and no Emit under way still owes a connected browser a flow |
| HubMachine.ConcurrentEmitsMayReorder | internal/ui/hub.go:106-118 | at any point of any run two Emits at once can be interleaved so that a given connected browser gets the later flow first |
| HubMachine.HistoryIsTail | internal/ui/hub.go:161-173 | after any run the list served is the last flows, newest first, as many as the history asked for (at least one), and with distinct ids lookup finds exactly those |
| HubMachine.LookupFinds | internal/ui/hub.go:352-363 | lookup returns a buffered flow with that id, or there is none |
| HubClass.Hub.constructor | internal/ui/hub.go:75-84 | the ring holds as many flows as the history asked for; a non-positive history is clamped to 1 |
| HubClass.Hub.Emit | internal/ui/hub.go:91-119 | the ring gains the flow and loses its oldest; each client gets the metadata or, if full, a drop; a flow that cannot be marshalled changes nothing |
| HubClass.Hub.Dropped | internal/ui/hub.go:123-131 | the sum of the drops of the connected clients |
| HubClass.TotalSplits | internal/ui/hub.go:126-130 | that sum does not depend on the order in which the client map is walked |
| HubClass.Hub.Flows | internal/ui/hub.go:163-173 | the reversed ring without bodies |
| HubClass.Hub.LookUp | internal/ui/hub.go:354-363 | the loop computes lookup |
| HubClass.Stream | internal/ui/hub.go:319-338 | turn by turn, with others sending between the receive and the write, and up to a failed write, the loop writes the flow, with a notice first if and only if the shed count changed |
| HubClass.StreamLosesAtMostOne | internal/ui/hub.go:319-338 | what was queued and then taken is, in that order, what was written, the at most one flow whose write failed, and what is queued still |
| HubClass.StreamIsHonest | internal/ui/hub.go:326-331 | the notices grow from what was reported before to what is reported now, which after a turn is the number shed |
| Tab.OpenedTabShowsTail | internal/ui/app/app.js:451-458 | a tab opened after any run lists exactly the server's tail, newest first, and stays consistent whatever arrives, is reloaded or is cleared |
| Tab.ActionsKeepConsistent | internal/ui/app/app.js:99-103 | the list shows each known flow exactly once, under any sequence of actions |
| Tab.TabShowsWhatCame | internal/ui/app/app.js:99-103 | whatever arrives, is reloaded and is cleared, the list shows exactly the flows brought since the last clear, each once, in the order in which they first came, newest on top, and in its latest version |
| Tab.LoadShowsList | internal/ui/app/app.js:451-458 | loading a list into an empty tab reproduces it |
| Tab.Page.AddFlow | internal/ui/app/app.js:99-103 | a new id goes to the front, a known one keeps its place |
| Tab.Page.LoadHistory | internal/ui/app/app.js:451-458 | the backwards loop refines Load |
| Tab.Page.ClearAll | internal/ui/app/app.js:443-449 | nothing is left |
| AsyncSink.Conservation | internal/flow/async.go:28-43 | in every interleaving: delivered, in hand and buffered are what the channel took, in emission order, and with the dropped they are all that was emitted |
| AsyncSink.DroppedExactlyWhenFull | internal/flow/async.go:35-43 | at any point of any run an Emit drops its flow if and only if the buffer asked for is full and the drainer is not waiting; otherwise the flow is in hand or last in the buffer |
| AsyncSink.CloseReturns | internal/flow/async.go:50-55 | after Close the drainer reaches its end by its own steps, having delivered all that was left, in order |
| AsyncSink.Async.EmitFlow | internal/flow/async.go:37-43 | one non-blocking send refines the machine's step |
| AsyncSink.Async.Run | internal/flow/async.go:28-33 | over a closed channel the drainer takes exactly the machine's remaining steps |
| AsyncSink.Async.CloseAndWait | internal/flow/async.go:50-55 | Close, from wherever the drainer stands, returns with it done: everything taken is delivered in order, and nothing is dropped |
| Authority.OneCaForever | internal/ca/authority.go:73-109 | through any sequence of Loads with any failures, crashes and torn writes, all that succeed return one certificate and key |
| Authority.HeldForever | internal/ca/authority.go:131-155 | once files say one CA, every later success returns it and the files keep saying it |
| Authority.LoadNeverAlters | internal/ca/authority.go:86-96 | no Load changes an existing CA file or completes half a pair |
| Authority.HalfPresentIsRefused | internal/ca/authority.go:92-95 | half a CA is an error, without change |
| Authority.SuccessIsOnDisk | internal/ca/authority.go:88-91 | a Load that succeeds returns what the files then say |
| Authority.OwnWorkLoads | internal/ca/authority.go:207-231 | in a directory that only Load has written, an undisturbed Load generates if nothing is there, and else succeeds if and only if both files are there and the certificate can be read |
| Authority.FirstLoadStops | internal/ca/authority.go:73-109 | for each of the ten steps of a Load in an empty directory, going wrong in any way: no success, and exactly which files are there; no certificate before the key is secured |
| Authority.Directory.LoadCa | internal/ca/authority.go:73-109 | the step sequence of Load refines the specification |
| Authority.Directory.PersistPair | internal/ca/authority.go:207-231 | key before certificate, each secured before the next step |
| Decode.DecodeUndoesEncoding | internal/flow/decode.go:38-85 | any stack of supported codings, however the header prints it, is undone completely and reported so; a deflate layer is zlib, or raw and failing the zlib check |
| Decode.DecodeIsTotalAndBounded | internal/flow/decode.go:38-85 | for every header, body, cap and decompressor behaviour: how far undoing got, that the output is that or its first cap bytes, and what the report says about it |
| Decode.CodingIsKnownByName | internal/flow/decode.go:38-166 | for a header of one token in any case, which names are undone, by which reader, what is shown when it errs (a text that speaks of unexpected EOF, truncated or corrupt keeps the part), the cap of 10 MiB unless given, and that other names leave the body as it is |
| Decode.BareDeflateIsNotZlib | internal/flow/decode.go:103-115 | a zero-padded raw deflate stream never passes the zlib check |
| Decode.BareDeflateIsReadExactlyWhen | internal/flow/decode.go:103-115 | a raw deflate body is decoded to what it stands for, if and only if it fails the zlib check or reads the same as zlib |
| Decode.BareDeflateIsReadExactlyWhenNotZlib | internal/flow/decode.go:103-115 | the same as a condition on the bytes: it fails the zlib check, or what follows the zlib header is DEFLATE for the same body with its checksum |
| Decode.OtherPaddingIsMisread | internal/flow/decode.go:103-115 | valid streams of one stored block, with non-zero padding, are shown as an empty partial body |
| Decode.ZlibFirstByte | internal/flow/decode.go:103-115 | which first bytes zlib accepts, as DEFLATE block headers |
| Decode.UsualZlibHeaders | internal/flow/decode.go:108-114 | of the headers that begin 0x78 without a dictionary, exactly 0x01, 0x5E, 0x9C and 0xDA pass |
| Decode.TokensAreRead | internal/flow/decode.go:156-166 | case, space, empty and identity tokens make no difference |
| Decode.ParseCodings | internal/flow/decode.go:156-166 | the token loop computes the list |
| Decode.DecodeBody | internal/flow/decode.go:38-85 | the layer loop, with its early returns, refines the specification |
| Capture.CopyThrough | internal/proxy/server.go:262-268 | copying through a capture passes the whole stream, keeps its first cap bytes, and reports truncation exactly if there were more |
| Capture.CaptureReader.Read | internal/proxy/server.go:336-345 | one read keeps the captured prefix and the total exact, bytes together with an error included |
| Capture.ChunkingIsInvisible | internal/proxy/server.go:322-354 | any two ways of cutting one stream into reads capture the same, and truncation means exactly that something is missing |
| Capture.EveryCuttingPasses | internal/proxy/server.go:336-345 | however a stream is cut into reads, all of it passes, and nothing after its end |
| HopByHop.RemoveHopByHop | internal/proxy/server.go:298-312 | the two loops compute the end-to-end headers, even when Connection names itself part-way |
| HopByHop.RemoveFixed | internal/proxy/server.go:309-311 | in any order of the map |
| HopByHop.SurvivorsAreEndToEnd | internal/proxy/server.go:25-35 | a field survives, with its values in order, if and only if it is not one of the nine connection-scoped ones, in their canonical spelling, and no token of any Connection value names it |
| HopByHop.StrippingIsIdempotent | internal/proxy/server.go:301-312 | stripping twice is stripping once |
| HopByHop.CanonicalIgnoresCase | internal/proxy/server.go:305-310 | two field names have one canonical form if and only if they differ in case alone |
| HopByHop.CopyHeaders | internal/proxy/server.go:314-320 | in any order of the map, copying gives every field that has a value, with its values in order |
| HopByHop.CopyReproduces | internal/proxy/server.go:314-320 | the copy is the original if and only if every field has a value, as every field of a parsed response has |
| Shell.CurlIsReadBack | internal/ui/app/app.js:284-298 | for any token as method and anything else without NUL, a POSIX shell reads the whole copied text as exactly the intended arguments (curl, the method and the whole URL first), if and only if the method has no special character and does not start with # or ~ |
| Shell.ShqRoundTrip | internal/ui/app/app.js:295-298 | a POSIX shell reads a quoted string as that one word, if and only if it has no NUL |
| Shell.ToCurl | internal/ui/app/app.js:284-293 | the pushing loops compute the text |
| Units.ConsoleUnit | internal/flow/console.go:185-196 | for every size of an int64 the loop ends with div = 1024^(exp+1) and div <= n < 1024 div, without overflow and with exp <= 5 |
| Units.BrowserUnit | internal/ui/app/app.js:61-67 | the browser's loop finds the unit below 1024^5 and stops at T above it, dividing exactly |
| Units.SameUnit | internal/ui/app/app.js:61-67 | both show the same unit below 1024^5 |

## Left out

- TLS, X.509, RSA and ECDSA: a certificate is its host (or public key) with a serial number; whether a handshake succeeds is an input. The choice of SAN kind and the SNI fallback are not modelled.
- PEM: a text and its parser, where a cut-off text is rejected or still complete.
- gzip, brotli and DEFLATE bit streams: the decompressors are arbitrary functions; only the zlib header check and the first DEFLATE byte are bits.
- Sockets, hijacking, dialling, the HTTP server and transport: each is an outcome of a step. The one-connection listener is not modelled, nor is the rejection of requests that are not proxy requests.
- JSON: a snapshot reads back as it was written, and a torn one never parses.
- The resolution of the originating process: the origin is an input.
- Integer width of flow ids and counters (64-bit) and of the decode cap: unbounded here. Unit scaling and port numbers do respect 64 bits.
- Wording of error messages: a stage and a text instead. Durations, statuses (but for whether they can be relayed), paths and bodies of flows are not carried by the connection machine.
- Lower-casing outside ASCII, but for the two characters that Go maps into ASCII.
- The order of header keys in the copied curl command: the sorted list is an input. Likewise the sorting of filter ids.
- Two proxysim processes at the same time, and a user who changes or removes a service while a snapshot names it.
- File permissions, and the no-op build on other systems.
- A failing writer in the middle of io.Copy, when the capture has seen bytes that the client has not.
- The gap between loading history and opening the event stream, in which a tab can miss flows.
- The page's selection, filter box and layout; the console's layout; simctl and app listing.
- Update in place under interleaving: the state machines are values, and the classes run each method without interruption (LeafCache.Authority.Leaf takes what others store meanwhile as an input). HubClass carries the fields of the source and not the send and frame histories of HubMachine.
- AsyncSink.Async.CloseAndWait: waiting is the drainer taking its remaining steps; no third party runs meanwhile, as Emit must not be called concurrently.
