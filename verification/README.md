# Verified models of the split-tunnel driver and its companions

The main part is the control plane of the Windows split-tunnel driver: a state machine that decides which
processes bypass the VPN tunnel. User mode sends it a list of processes, tunnel addresses and a configuration
of image names. The driver is *engaged* while the tunnel is active and the configuration is not empty. It then
gives each process a split status, inherited along parent links, and keeps one reference-counted set of
blocking filters for each image in the Windows Filtering Platform (WFP). Almost every call can fail, and every
failure has a way back. The smaller parts are the request buffers on both sides, the grouped gateway list and
the node list that the app makes of it, and three data structures: a handle allocator, a list splice and a
rounding mask.

## How the files fit together

- `SplitTypes`: plain data. `Ancestry`, `Propagation`, `Conservation`, `EventLog`: what it means for parent
  links to be a forest, for settings to be final, for registrations to be accounted for and for the event log
  to be truthful.
- `WfpEngine`, `AppFilters`, `Firewall`: the firewall with its transactions. A failed WFP call may leave any
  filters behind. The list of blocked images has its own undo log.
- `DriverSteps`: what each request, arrival and departure may do to the state. `Driver`: the handlers, each
  proved to perform such a step for every order in which the process registry is traversed and for every call
  that fails, and the composition of all of them into runs. `DriverRuns`: the invariant of all runs.
  `DriverTheorems`: what follows from it, and which steps keep the log truthful and the settings up to date.
  `DriverInputs`: what the outside world does, and when the driver can be done with it. `DriverFaults`: what it
  leads to if no call fails. `DriverHistory`: what the steps so far say about addresses, configuration,
  processes and events. `DriverWitnesses`: runs that show each exception to be reachable.
- `WireFormat`, `Packing`, `ConfigurationBuffers`, `ProcessBuffers`: validation, serialization and parsing.
- `StableSort`, `Gateways`, `NodeList`: the gateway list. `HandleContainer`, `ListSplice`, `Rounding`: the
  data structures.

A nondeterministic value stands for the outcome of each fallible call and for the order of each traversal.
Where a handler's result depends on such outcomes, they appear in its step as parameters. Calls that fail are
counted: each method promises that the count has grown if it does not achieve what it is for, unless the state
or its arguments rule that out.

## What the proofs turned up

- Propagation (`ioctl.cpp`, line 212) makes a configured hybrid process split by inheritance if an ancestor
  splits, but an arriving hybrid process stays hybrid. Nor does an arriving process that splits pass that on to
  a child that has arrived before it. Up to these two, arrivals and propagation agree (`ArrivalRefinesSync`,
  `HybridChildDisturbs`, `AdoptionDisturbs`). A departure parts from propagation exactly when it orphans a hybrid
  process that splits by inheritance (`DepartureRefinesSync`, `OrphanDisturbs`).
- An arriving hybrid process is announced as starting to split, although its status does not count as
  splitting and nothing announces its stop (`HybridArrivalMisleads`). Truthfulness of the log is proved for
  exactly the other steps (`FaithfulStep`), and what has to hold before an arrival or departure for the log to
  stay truthful whatever fails is stated exactly, too (`ArrivalSurelyFaithful`, `DepartureSurelyFaithful`).
- A departure whose firewall update fails leaves its registration behind until splitting is disabled
  (`RegistrationLeaks`). Counts are exact up to these (`RegistrationsCoverUsers`, `LeakStep`), and only a process
  with firewall state can cause one (`DepartureSurelyReleases`).
- A process that arrives as splitting gets no firewall state, so that having firewall state and splitting are
  equivalent only as long as no such process has arrived (`FirewallStateRun`, `SplittingWithoutState`).
- If disabling splitting fails while entering the engaged state is rolled back, the firewall stays enabled, no
  later attempt to engage can succeed, and the first reset makes a zombie for good (`FailedRollbackIsFinal`,
  `FailedRollbackReachable`).
- Failures of WFP transactions are reported by error messages in the event log: exactly one for each failed attempt
  to begin or commit, and for each set of reauthorization filters that is left behind (`TransactionCommit`,
  `HandleInput`). A client's beliefs do not depend on them (`ComplainsFaithful`).
- Failure has a cause. If no call fails, every input achieves what it is for: a request succeeds exactly if what it
  needs is there, nothing leaks and rolling back leaves nothing behind (`Operate`, `SoundRun`, `RegisteringEngages`).
- Both validators reject a buffer whose string area is empty, so that a list with empty strings only is not
  accepted although it can be packed (`StoredRoundTrip`, `ProcessRoundTrip`).
- The driver takes any parent id. A process whose parent is not registered leaves a dangling link, and a process
  that arrives later with that id can close a cycle, on which the ancestry walk would not end (`AddedAcyclic`,
  `CycleReachable`). None of the invariants depends on this. The walk ends exactly if it meets a seeded ancestor or
  leaves the registry (`AncestorSplits`, `EndlessWalk`), it always does in runs that close no cycle (`AcyclicRun`,
  `AdmissibleWelcome`, `OrderedAlwaysWelcome`), and the process list that user mode compiles has none
  (`PayloadIsAdmissible`).
- Duplicates in a configuration are found by a comparison without regard to case, but names are stored in lower
  case. Stored names are distinct exactly if the two agree (`StoredDistinctExactly`).
- `ReparentList` with the same list as source and destination would lose its nodes, which its contract states.

## Model

| member | source | states |
|---|---|---|
| `DriverRuns.RunInvariant` | nym-vpn-windows/split-tunnel-driver/nymvpn-split-tunnel/ioctl.cpp:376-711 | In every state of every run, whatever fails and whatever processes arrive under whatever parents: engaged exactly when the tunnel is active and the configuration is not empty, firewall on the stored addresses, registrations conserved, one live image set |
| `DriverRuns.StepKeeps` | nym-vpn-windows/split-tunnel-driver/nymvpn-split-tunnel/ioctl.cpp:376-1155 | Every request, arrival and departure keeps that invariant, with no condition on the step |
| `DriverRuns.AcyclicStep` | nym-vpn-windows/split-tunnel-driver/nymvpn-split-tunnel/containers/procregistry.cpp:185-210 | A step keeps the parent links free of cycles if it is admissible, and an arrival only if it does not close a cycle |
| `DriverRuns.AcyclicRun` | nym-vpn-windows/split-tunnel-driver/nymvpn-split-tunnel/ioctl.cpp:214-233 | In a run of admissible steps no process is ever its own ancestor, and every ancestry walk ends for every configuration |
| `DriverTheorems.EngagedExactly` | nym-vpn-windows/split-tunnel-driver/nymvpn-split-tunnel/ioctl.cpp:492-637 | Ready and engaged are told apart by the stored addresses and configuration alone; every blocking filter of an engaged driver is conditioned on exactly the tunnel addresses that are set; nothing splits in the ready state |
| `DriverTheorems.RegistrationsCoverUsers` | nym-vpn-windows/split-tunnel-driver/nymvpn-split-tunnel/ioctl.cpp:131-201 | An image never has fewer filter registrations than processes with firewall state, and has as many exactly when no departure leaked one |
| `DriverTheorems.LeakStep` | nym-vpn-windows/split-tunnel-driver/nymvpn-split-tunnel/procmgmt/procmgmt.cpp:332-393 | A registration is leaked exactly by a departure that the firewall could not be told about |
| `DriverTheorems.DepartureSurelyReleases` | nym-vpn-windows/split-tunnel-driver/nymvpn-split-tunnel/procmgmt/procmgmt.cpp:332-393 | Before a departure: nothing leaks whatever fails if and only if the process is unknown or has no firewall state |
| `DriverTheorems.NoLeaks` | nym-vpn-windows/split-tunnel-driver/nymvpn-split-tunnel/ioctl.cpp:131-201 | In a run without such departures, registrations equal processes with firewall state, image by image |
| `DriverTheorems.ImageSetsAccounted` | nym-vpn-windows/split-tunnel-driver/nymvpn-split-tunnel/ioctl.cpp:572-711 | Image sets created equal image sets torn down, plus the one in use unless the driver is in its initial state |
| `DriverTheorems.FailedRollbackIsFinal` | nym-vpn-windows/split-tunnel-driver/nymvpn-split-tunnel/ioctl.cpp:438-466 | In every run: if disabling splitting failed while rolling back, the driver stays ready with the firewall enabled until the first reset, and is a zombie from then on |
| `DriverTheorems.FirewallStateStep` | nym-vpn-windows/split-tunnel-driver/nymvpn-split-tunnel/procmgmt/procmgmt.cpp:133-175 | Splitting without firewall state comes about exactly by a process arriving as splitting |
| `DriverTheorems.FirewallStateRun` | nym-vpn-windows/split-tunnel-driver/nymvpn-split-tunnel/procmgmt/procmgmt.cpp:133-284 | In a run without splitting arrivals, having firewall state and splitting are the same for every process |
| `DriverTheorems.FaithfulStep` | nym-vpn-windows/split-tunnel-driver/nymvpn-split-tunnel/ioctl.cpp:338-373 | A step keeps the log faithful (alternating, and replaying to exactly the splitting processes) if and only if it is quiet; all requests are |
| `DriverTheorems.FaithfulRun` | nym-vpn-windows/split-tunnel-driver/nymvpn-split-tunnel/ioctl.cpp:338-422 | After a run of quiet steps, replaying the log gives exactly the processes whose setting is splitting |
| `DriverTheorems.ArrivalFaithful` | nym-vpn-windows/split-tunnel-driver/nymvpn-split-tunnel/procmgmt/procmgmt.cpp:133-284 | An arrival keeps the log faithful if and only if an event goes out exactly when the process splits; a hybrid arrival that is announced breaks it |
| `DriverTheorems.DepartureFaithful` | nym-vpn-windows/split-tunnel-driver/nymvpn-split-tunnel/procmgmt/procmgmt.cpp:332-393 | A departure keeps the log faithful if and only if the firewall could be told |
| `DriverTheorems.ArrivalSurelyFaithful` | nym-vpn-windows/split-tunnel-driver/nymvpn-split-tunnel/procmgmt/procmgmt.cpp:133-284 | Before an arrival: the log stays faithful whatever fails if and only if the process is known already or arrives as off |
| `DriverTheorems.DepartureSurelyFaithful` | nym-vpn-windows/split-tunnel-driver/nymvpn-split-tunnel/procmgmt/procmgmt.cpp:332-393 | Before a departure: the log stays faithful whatever fails if and only if the process is unknown or has no firewall state |
| `DriverTheorems.StableStep` | nym-vpn-windows/split-tunnel-driver/nymvpn-split-tunnel/procmgmt/procmgmt.cpp:133-393 | While engaged, an arrival or departure leaves settings as a synchronization would compute them if and only if it is undisturbed; requests always do |
| `DriverTheorems.ArrivalSurelyStable` | nym-vpn-windows/split-tunnel-driver/nymvpn-split-tunnel/procmgmt/procmgmt.cpp:133-175 | Before an arrival: settings stay as a synchronization would compute them whatever fails if and only if the process is known already or does not disturb |
| `DriverTheorems.DepartureSurelyStable` | nym-vpn-windows/split-tunnel-driver/nymvpn-split-tunnel/procmgmt/procmgmt.cpp:332-393 | Whether a departure leaves settings so does not depend on what fails, but only on whether it orphans a hybrid process |
| `DriverTheorems.StableRun` | nym-vpn-windows/split-tunnel-driver/nymvpn-split-tunnel/ioctl.cpp:376-435 | In a run without such steps, an engaged driver always has the settings that its configuration asks for |
| `DriverTheorems.StableSyncIsSilent` | nym-vpn-windows/split-tunnel-driver/nymvpn-split-tunnel/ioctl.cpp:376-435 | Synchronizing again changes no settings, no registration count, and adds to the log at most the error messages about reauthorization filters that stay behind |
| `DriverWitnesses.CycleReachable` | nym-vpn-windows/split-tunnel-driver/nymvpn-split-tunnel/containers/procregistry.cpp:259-269 | A run reaches a dangling parent link, and then a cycle on which the next synchronization would not end |
| `DriverWitnesses.HybridArrivalMisleads` | nym-vpn-windows/split-tunnel-driver/nymvpn-split-tunnel/procmgmt/procmgmt.cpp:133-175 | A run in which a hybrid arrival makes a client believe that it splits |
| `DriverWitnesses.SplittingWithoutState` | nym-vpn-windows/split-tunnel-driver/nymvpn-split-tunnel/procmgmt/procmgmt.cpp:133-284 | A run in which a process splits without firewall state |
| `DriverWitnesses.RegistrationLeaks` | nym-vpn-windows/split-tunnel-driver/nymvpn-split-tunnel/procmgmt/procmgmt.cpp:332-393 | A run in which a departure leaves a registration that no process accounts for |
| `DriverWitnesses.FailedRollbackReachable` | nym-vpn-windows/split-tunnel-driver/nymvpn-split-tunnel/ioctl.cpp:438-466 | A run in which the firewall stays enabled although the driver is not engaged |
| `DriverWitnesses.HybridChildDisturbs` | nym-vpn-windows/split-tunnel-driver/nymvpn-split-tunnel/ioctl.cpp:209-237 | A run in which a hybrid child of a splitting parent keeps a status that synchronizing would change |
| `DriverWitnesses.AdoptionDisturbs` | nym-vpn-windows/split-tunnel-driver/nymvpn-split-tunnel/procmgmt/procmgmt.cpp:133-175 | A run in which a splitting parent arrives after its child, which does not split until the next synchronization |
| `DriverWitnesses.OrphanDisturbs` | nym-vpn-windows/split-tunnel-driver/nymvpn-split-tunnel/containers/procregistry.cpp:65-94 | A run in which an orphaned hybrid process goes on splitting until the next synchronization |
| `DriverFaults.SoundRun` | nym-vpn-windows/split-tunnel-driver/nymvpn-split-tunnel/ioctl.cpp:376-711 | In a run in which no call fails nothing leaks, splitting is off in WFP whenever the driver is ready, and the driver never becomes a zombie |
| `DriverFaults.RegisteringEngages` | nym-vpn-windows/split-tunnel-driver/nymvpn-split-tunnel/ioctl.cpp:438-535 | In such a run, registering addresses engages a ready driver with a configuration, with these addresses and with every setting synchronized, if and only if they hold a tunnel and something to split from it; otherwise it stays ready with splitting off |
| `DriverFaults.RegistrableExactly` | nym-vpn-windows/split-tunnel-driver/nymvpn-split-tunnel/ioctl.cpp:492-569 | In every reachable state: what RegisterIpAddresses needs besides calls that succeed is addresses with a tunnel and something to split from it, or without a tunnel or a configuration, and that splitting has not been left enabled |
| `DriverFaults.SettableExactly` | nym-vpn-windows/split-tunnel-driver/nymvpn-split-tunnel/ioctl.cpp:572-637 | The same for SetConfiguration: an acceptable buffer with entries, and a driver that is engaged or can engage if it has to |
| `DriverFaults.CollisionsReported` | nym-vpn-windows/split-tunnel-driver/nymvpn-split-tunnel/procmgmt/procmgmt.cpp:30-131 | Unless a call fails, an arrival is added exactly if its id is new, and goes unreported although it is not added exactly if parent and image are those of the entry |
| `DriverHistory.AddressesAreRegistered` | nym-vpn-windows/split-tunnel-driver/nymvpn-split-tunnel/ioctl.cpp:492-569 | In every state of every run, the addresses in use are those of the last registration that has succeeded since the last successful reset, if any |
| `DriverHistory.ConfigurationIsRequested` | nym-vpn-windows/split-tunnel-driver/nymvpn-split-tunnel/ioctl.cpp:572-637 | In every state of every run, the configuration in use is made of the last buffer that was set with success, or empty if it has been cleared, initialized or reset since |
| `DriverHistory.EngagedAsRequested` | nym-vpn-windows/split-tunnel-driver/nymvpn-split-tunnel/ioctl.cpp:492-637 | While configured requests are served, the driver is engaged if and only if the addresses registered last hold a tunnel and the configuration asked for last is not empty |
| `DriverHistory.ProcessesAreKnown` | nym-vpn-windows/split-tunnel-driver/nymvpn-split-tunnel/containers/procregistry.cpp:65-210 | In every state of every run, the registry holds exactly the processes that were listed or have arrived and not departed, with their parents and images, the links to departed parents cleared |
| `DriverHistory.ProcessesStep` | nym-vpn-windows/split-tunnel-driver/nymvpn-split-tunnel/ioctl.cpp:131-361 | Every step does to processes, parents and images what its name says; settings that change are those that were the target, and the ones from before are remembered |
| `DriverHistory.LowerCaseRun` | nym-vpn-windows/split-tunnel-driver/nymvpn-split-tunnel/containers/procregistry.cpp:148-183 | However names are spelled when processes are listed or arrive, they are registered in lower case |
| `DriverHistory.EventsOfStep` | nym-vpn-windows/split-tunnel-driver/nymvpn-split-tunnel/ioctl.cpp:338-373 | What a step logs is about the step: starts and stops by configuration come from requests and tell of a process that is there before and after, with its image, and has begun or ceased to split; arriving and departing events come from the arrival or departure of that very process. Every process that a step makes split or not is announced |
| `DriverHistory.EveryEventExplained` | nym-vpn-windows/split-tunnel-driver/nymvpn-split-tunnel/ioctl.cpp:338-373 | Every event in the log of every run was logged by a step that explains its kind, process, image and reason |
| `EventLog.AlternatesPerProcess` | nym-vpn-windows/split-tunnel-driver/nymvpn-split-tunnel/ioctl.cpp:338-361 | In an alternating log, the events of each process are start, stop, start and so on |
| `EventLog.AnnouncesFaithful` | nym-vpn-windows/split-tunnel-driver/nymvpn-split-tunnel/ioctl.cpp:338-361 | Announcing each change of settings once, in any order of processes, keeps a faithful log faithful |
| `EventLog.ComplainsFaithful` | nym-vpn-windows/split-tunnel-driver/nymvpn-split-tunnel/firewall/firewall.cpp:229-277 | Error messages in the log change nothing that a client believes |
| `Propagation.SplitsFromParent` | nym-vpn-windows/split-tunnel-driver/nymvpn-split-tunnel/ioctl.cpp:209-237 | A process has a splitting seed among itself and its ancestors if and only if it is seeded itself or its parent has one |
| `Propagation.TargetSplits` | nym-vpn-windows/split-tunnel-driver/nymvpn-split-tunnel/ioctl.cpp:209-237 | The final target is splitting if and only if the process or some ancestor is seeded as splitting; visiting order and old targets play no part |
| `Propagation.SyncIdempotent` | nym-vpn-windows/split-tunnel-driver/nymvpn-split-tunnel/ioctl.cpp:96-113 | A second synchronization with the same configuration changes no settings, including orphans kept split by inheritance |
| `Propagation.SyncedStable` | nym-vpn-windows/split-tunnel-driver/nymvpn-split-tunnel/ioctl.cpp:376-435 | Settings after a synchronization are those that another one would compute |
| `Propagation.ArrivalRefinesSync` | nym-vpn-windows/split-tunnel-driver/nymvpn-split-tunnel/procmgmt/procmgmt.cpp:133-175 | After an arrival all settings agree with a full propagation if and only if no hybrid process arrives under a splitting parent and no splitting process adopts a child that does not split; parent links are arbitrary |
| `Propagation.DepartureRefinesSync` | nym-vpn-windows/split-tunnel-driver/nymvpn-split-tunnel/containers/procregistry.cpp:65-94 | After a departure all settings agree with a full propagation if and only if it orphans no hybrid process that splits by inheritance; parent links are arbitrary |
| `Propagation.AcyclicWalksEnd` | nym-vpn-windows/split-tunnel-driver/nymvpn-split-tunnel/ioctl.cpp:214-233 | Without cycles the walk from every process ends for every configuration |
| `Ancestry.AddedAcyclic` | nym-vpn-windows/split-tunnel-driver/nymvpn-split-tunnel/containers/procregistry.cpp:185-210 | An arrival keeps the parent links free of cycles if and only if the ancestry of its parent does not end in a link to its own id |
| `Ancestry.RemovedAcyclic` | nym-vpn-windows/split-tunnel-driver/nymvpn-split-tunnel/containers/procregistry.cpp:65-94 | A departure never closes a cycle |
| `Conservation.MixedUsersStep` | nym-vpn-windows/split-tunnel-driver/nymvpn-split-tunnel/ioctl.cpp:131-201 | Moving one process over to its target changes the count of its own image only, by the change of its firewall state |
| `Driver.AncestorSplits` | nym-vpn-windows/split-tunnel-driver/nymvpn-split-tunnel/ioctl.cpp:214-233 | The walk towards the root ends if some ancestor is seeded or the links lead out of the registry, and finds a splitting ancestor exactly when there is a seeded one, also half-way through a propagation |
| `Driver.EndlessWalk` | nym-vpn-windows/split-tunnel-driver/nymvpn-split-tunnel/ioctl.cpp:214-233 | Otherwise it goes on for ever: after any number of links there is an ancestor, and it is not being split |
| `Driver.StillRegistered` | nym-vpn-windows/split-tunnel-driver/nymvpn-split-tunnel/ioctl.cpp:131-201 | Half-way through a propagation, a process that is still to lose its firewall state is registered with the firewall, so that unregistering it cannot fail for that reason |
| `Driver.Driver.UpdateTargetSplitSetting` | nym-vpn-windows/split-tunnel-driver/nymvpn-split-tunnel/ioctl.cpp:96-113 | The seed of one entry |
| `Driver.Driver.UpdateTargetSplitSettings` | nym-vpn-windows/split-tunnel-driver/nymvpn-split-tunnel/ioctl.cpp:388 | All entries hold their seeds as targets, in any order of visits |
| `Driver.Driver.ApplyFinalizeTargetSettings` | nym-vpn-windows/split-tunnel-driver/nymvpn-split-tunnel/ioctl.cpp:131-201 | The firewall gains or loses one registration exactly if firewall state comes or goes; a failure changes only a target |
| `Driver.Driver.PropagateApplyTargetSettings` | nym-vpn-windows/split-tunnel-driver/nymvpn-split-tunnel/ioctl.cpp:209-237 | One more process is final, whatever others have been visited |
| `Driver.Driver.PropagateApplyAllTargetSettings` | nym-vpn-windows/split-tunnel-driver/nymvpn-split-tunnel/ioctl.cpp:398 | All processes final, in any order of visits, with registrations following; or a failure that leaves settings alone |
| `Driver.Driver.PropagateInTransaction` | nym-vpn-windows/split-tunnel-driver/nymvpn-split-tunnel/ioctl.cpp:390-434 | All processes followed to their final targets in one committed transaction, which forces reauthorization exactly if asked to; or the committed state as it was, with at most one error message. If splitting is enabled and registrations cover the registry, only a failed call can make it fail |
| `Driver.Driver.FinishTransaction` | nym-vpn-windows/split-tunnel-driver/nymvpn-split-tunnel/ioctl.cpp:408-434 | A complete transaction is committed and anything else is aborted; one error message for each that is due |
| `Driver.Driver.RealizeAnnounceSettingsChange` | nym-vpn-windows/split-tunnel-driver/nymvpn-split-tunnel/ioctl.cpp:338-361 | The target becomes the setting, the old setting is remembered, and exactly one event goes out if splitting changes; EventsOfStep says what that event tells |
| `Driver.Driver.RealizeAnnounceSettingsChanges` | nym-vpn-windows/split-tunnel-driver/nymvpn-split-tunnel/ioctl.cpp:422 | All changes of settings are announced once each, in any order of visits |
| `Driver.Driver.ClearRealizeAnnounceSettingsChange` | nym-vpn-windows/split-tunnel-driver/nymvpn-split-tunnel/ioctl.cpp:368-373 | One entry is off, with an event if it was splitting; EventsOfStep says what that event tells |
| `Driver.Driver.ClearRealizeAnnounceSettingsChanges` | nym-vpn-windows/split-tunnel-driver/nymvpn-split-tunnel/ioctl.cpp:482 | All entries are off, and all stops announced once each |
| `Driver.Driver.SyncProcessRegistry` | nym-vpn-windows/split-tunnel-driver/nymvpn-split-tunnel/ioctl.cpp:376-435 | All or nothing: either settings, firewall and log all reflect the computed targets, or settings and committed firewall are what they were and the log has grown by at most one error message; it fails only if a call fails, provided that splitting is enabled and registrations cover the registry |
| `Driver.Driver.EnterEngagedState` | nym-vpn-windows/split-tunnel-driver/nymvpn-split-tunnel/ioctl.cpp:438-466 | Engaged with every setting synchronized, or not engaged with settings untouched and at most two error messages; in a ready state with usable addresses only a failed call can prevent it, and it takes two for splitting to be left enabled |
| `Driver.Driver.LeaveEngagedState` | nym-vpn-windows/split-tunnel-driver/nymvpn-split-tunnel/ioctl.cpp:469-489 | All processes off, the firewall empty and the stops announced; or, if a call fails, nothing changed but for one error message |
| `Driver.Driver.RegisterIpAddressesAtReady` | nym-vpn-windows/split-tunnel-driver/nymvpn-split-tunnel/ioctl.cpp:492-535 | Stores the addresses, and engages if they are active and there is a configuration; fails only if a call does or the addresses allow no splitting |
| `Driver.Driver.RegisterIpAddressesAtEngaged` | nym-vpn-windows/split-tunnel-driver/nymvpn-split-tunnel/ioctl.cpp:538-569 | Moves all filters to the new addresses, or leaves the engaged state; on failure only an error message is added |
| `Driver.Driver.RegisterIpAddresses` | nym-vpn-windows/split-tunnel-driver/nymvpn-split-tunnel/ioctl.cpp:1165-1214 | Addresses stored and the state engaged or not as they ask for, or everything but unused targets as before; a failed rollback may leave the firewall enabled. AddressesAreRegistered says what is stored over runs |
| `Driver.Driver.SetConfigurationPrepare` | nym-vpn-windows/split-tunnel-driver/nymvpn-split-tunnel/ioctl.cpp:818-888 | A valid buffer becomes a new image set; any failure tears down what was created |
| `Driver.Driver.AddEntry` | nym-vpn-windows/split-tunnel-driver/nymvpn-split-tunnel/containers/registeredimage.cpp:26-149 | Adds an image in lower case unless a stored name compares equal without regard to case |
| `Driver.Driver.RegisterConfigurationAtReady` | nym-vpn-windows/split-tunnel-driver/nymvpn-split-tunnel/ioctl.cpp:572-610 | The new image set is in use and the old one torn down, or the other way round |
| `Driver.Driver.RegisterConfigurationAtEngaged` | nym-vpn-windows/split-tunnel-driver/nymvpn-split-tunnel/ioctl.cpp:613-637 | The same, with a synchronization in between that forces reauthorization |
| `Driver.Driver.SetConfiguration` | nym-vpn-windows/split-tunnel-driver/nymvpn-split-tunnel/ioctl.cpp:898-930 | The configuration replaced with settings following if engaged, or the old one still in use; exactly one image set survives; a buffer that is rejected changes nothing. ConfigurationIsRequested says what is in use over runs |
| `Driver.Driver.ClearConfiguration` | nym-vpn-windows/split-tunnel-driver/nymvpn-split-tunnel/ioctl.cpp:1043-1072 | The image set in use is emptied, after leaving the engaged state; if that fails only an error message is added. ConfigurationIsRequested says what is in use over runs |
| `Driver.Driver.RegisterProcesses` | nym-vpn-windows/split-tunnel-driver/nymvpn-split-tunnel/ioctl.cpp:1075-1155 | Ready with exactly the listed processes, all off, or initialized with an empty registry |
| `Driver.Driver.LoadProcesses` | nym-vpn-windows/split-tunnel-driver/nymvpn-split-tunnel/ioctl.cpp:1109-1146 | All processes of the buffer or none; a repeated id is a failure |
| `Driver.Driver.HandleProcessArriving` | nym-vpn-windows/split-tunnel-driver/nymvpn-split-tunnel/procmgmt/procmgmt.cpp:177-284 | The new entry, and the event for it; duplicates of the same process are ignored, other collisions reported |
| `Driver.Driver.EvaluateSplitting` | nym-vpn-windows/split-tunnel-driver/nymvpn-split-tunnel/procmgmt/procmgmt.cpp:133-175 | The status of an arriving process from its own configuration and its parent only |
| `Driver.Driver.UpdateFirewallDepartingProcess` | nym-vpn-windows/split-tunnel-driver/nymvpn-split-tunnel/procmgmt/procmgmt.cpp:287-330 | One registration less, or the firewall as it was and at most one error message |
| `Driver.Driver.HandleProcessDeparting` | nym-vpn-windows/split-tunnel-driver/nymvpn-split-tunnel/procmgmt/procmgmt.cpp:332-393 | The entry is gone and its children orphaned, whether the firewall could be told or not, and the log tells which; only a failed call can keep the firewall from being told |
| `Driver.Driver.DeleteEntry` | nym-vpn-windows/split-tunnel-driver/nymvpn-split-tunnel/containers/procregistry.cpp:65-94 | The entry is removed and the links of its children cleared |
| `Driver.Driver.Initialize` | nym-vpn-windows/split-tunnel-driver/nymvpn-split-tunnel/ioctl.cpp:716-808 | All subsystems up with one empty image set, or everything undone |
| `Driver.Driver.TearDownSubsystems` | nym-vpn-windows/split-tunnel-driver/nymvpn-split-tunnel/ioctl.cpp:671-711 | Back to the initial state, or a zombie that still owns what could not be torn down |
| `Driver.Driver.ResetInner` | nym-vpn-windows/split-tunnel-driver/nymvpn-split-tunnel/ioctl.cpp:658-711 | Leaves the engaged state first; ends in the initial state with the image set torn down, or as a zombie |
| `Driver.Driver.HandleRequest` | nym-vpn-windows/split-tunnel-driver/nymvpn-split-tunnel/driverentry.cpp:418-566 | Which request is served in which state, and that all others change nothing; unless a call fails, a request succeeds exactly if what it needs is there |
| `Driver.Driver.HandleEarlyRequest` | nym-vpn-windows/split-tunnel-driver/nymvpn-split-tunnel/driverentry.cpp:435-485 | The requests that are served before processes are registered; unless a call fails, each succeeds exactly if what it needs is there |
| `Driver.Driver.HandleReset` | nym-vpn-windows/split-tunnel-driver/nymvpn-split-tunnel/ioctl.cpp:1397-1423 | A reset does nothing in the initial state, fails for a zombie, and is carried out otherwise; unless a call fails, it succeeds except for a zombie or after a failed rollback |
| `Driver.Driver.HandleConfiguredRequest` | nym-vpn-windows/split-tunnel-driver/nymvpn-split-tunnel/driverentry.cpp:464-550 | The requests that are served while processes are registered; unless a call fails, each succeeds exactly if what it needs is there |
| `Driver.Driver.DeviceControl` | nym-vpn-windows/split-tunnel-driver/nymvpn-split-tunnel/driverentry.cpp:318-330 | Requests with an input or output buffer above the size cap are rejected and change nothing; all others are served |
| `Driver.Driver.HandleInput` | nym-vpn-windows/split-tunnel-driver/nymvpn-split-tunnel/procmgmt/procmgmt.cpp:395-411 | Every request and process event is a step, events being ignored while they are not dispatched, and leaves the driver ready for the next one; unless a call fails, the step is what the input asks for; arrivals and resets aside, exactly the error messages that are due are logged |
| `Driver.Operate` | nym-vpn-windows/split-tunnel-driver/nymvpn-split-tunnel/driverentry.cpp:418-566 | From a freshly loaded driver, any sequence of requests and process events is a run, whatever fails, as long as no request sets off a walk that does not end; if no call fails, every input is fulfilled |
| `DriverInputs.AdmissibleWelcome` | nym-vpn-windows/split-tunnel-driver/nymvpn-split-tunnel/ioctl.cpp:214-233 | Wherever a run of admissible steps has got to, any next request or process event is welcome |
| `DriverInputs.OrderedAlwaysWelcome` | nym-vpn-windows/split-tunnel-driver/testing/proc.cpp:159-179 | Requests and process events in any order, arrivals and departures included, are always welcome if in some order of births every parent comes before its child |
| `AppFilters.AppFilters.TransactionAbort` | nym-vpn-windows/split-tunnel-driver/nymvpn-split-tunnel/firewall/appfilters.cpp:678-731 | Undoing the records brings back exactly the list from before the transaction |
| `AppFilters.AppFilters.RegisterFilterBlockAppTunnelTraffic` | nym-vpn-windows/split-tunnel-driver/nymvpn-split-tunnel/firewall/appfilters.cpp:745-793 | One more registration, the filters in agreement, and the list before the transaction still recoverable even on failure |
| `AppFilters.AppFilters.RemoveFilterBlockAppTunnelTraffic` | nym-vpn-windows/split-tunnel-driver/nymvpn-split-tunnel/firewall/appfilters.cpp:796-849 | One registration less, the filters gone with the last one, and the list before still recoverable |
| `AppFilters.AppFilters.Reset` | nym-vpn-windows/split-tunnel-driver/nymvpn-split-tunnel/firewall/appfilters.cpp:852-890 | All filters and entries gone, and the list before still recoverable |
| `AppFilters.AppFilters.UpdateFilters` | nym-vpn-windows/split-tunnel-driver/nymvpn-split-tunnel/firewall/appfilters.cpp:893-960 | All filters on the new addresses with counts unchanged, and the list before still recoverable |
| `AppFilters.RegisteredCount` | nym-vpn-windows/split-tunnel-driver/nymvpn-split-tunnel/firewall/appfilters.cpp:745-793 | Registering raises the count of that image by one and no other |
| `AppFilters.UnregisteredCount` | nym-vpn-windows/split-tunnel-driver/nymvpn-split-tunnel/firewall/appfilters.cpp:796-849 | Unregistering lowers the count of that image by one and no other |
| `AppFilters.UnregisteredWellFormed` | nym-vpn-windows/split-tunnel-driver/nymvpn-split-tunnel/firewall/appfilters.cpp:796-849 | Unregistering keeps images distinct and counts positive |
| `AppFilters.WithoutUndone` | nym-vpn-windows/split-tunnel-driver/nymvpn-split-tunnel/firewall/appfilters.cpp:129-146 | An entry put back behind its recorded predecessor is back at its old place |
| `Firewall.ModeExists` | nym-vpn-windows/split-tunnel-driver/nymvpn-split-tunnel/firewall/mode.cpp:10-62 | There is a splitting mode if and only if the tunnel is active and some internet address is set |
| `Firewall.ModeSelectsActiveTunnel` | nym-vpn-windows/split-tunnel-driver/nymvpn-split-tunnel/firewall/firewall.cpp:530-563 | Whatever the mode, it selects exactly the tunnel addresses that are set |
| `Firewall.ModeFilters` | nym-vpn-windows/split-tunnel-driver/nymvpn-split-tunnel/firewall/firewall.cpp:299-475 | The filters of all nine modes follow one rule for each address family: redirection with both addresses, blocking on a tunnel address, permitting traffic outside the tunnel with an internet address |
| `Firewall.Firewall.FiltersInstalled` | nym-vpn-windows/split-tunnel-driver/nymvpn-split-tunnel/firewall/firewall.cpp:299-475 | While splitting is enabled, WFP holds exactly the filters that both address families need and those of the blocked images |
| `Firewall.Firewall.EnableSplitting` | nym-vpn-windows/split-tunnel-driver/nymvpn-split-tunnel/firewall/firewall.cpp:906-975 | Enabled for the addresses with nothing blocked, or as before |
| `Firewall.Firewall.DisableSplitting` | nym-vpn-windows/split-tunnel-driver/nymvpn-split-tunnel/firewall/firewall.cpp:983-1029 | Off with nothing blocked, or as before |
| `Firewall.Firewall.RegisterUpdatedIpAddresses` | nym-vpn-windows/split-tunnel-driver/nymvpn-split-tunnel/firewall/firewall.cpp:1032-1121 | All filters moved at once, or none |
| `Firewall.Firewall.TransactionCommit` | nym-vpn-windows/split-tunnel-driver/nymvpn-split-tunnel/firewall/firewall.cpp:1164-1230 | The changes of the transaction become the committed state, or the transaction stays open; all connections are authorized anew exactly if that is asked for; one error message for a failed attempt to begin or commit a transaction, one for dummy filters that stay behind, and no other |
| `Firewall.Firewall.RemoveAleReauthorizationFilters` | nym-vpn-windows/split-tunnel-driver/nymvpn-split-tunnel/firewall/firewall.cpp:670-697 | Takes a transaction of its own and leaves all other filters alone; either one set of dummy filters less, or the same and a failed call |
| `Firewall.Firewall.TransactionAbort` | nym-vpn-windows/split-tunnel-driver/nymvpn-split-tunnel/firewall/firewall.cpp:1233-1263 | The committed state is that from before the transaction, in WFP and in the list |
| `Firewall.Firewall.RegisterAppBecomingSplit` | nym-vpn-windows/split-tunnel-driver/nymvpn-split-tunnel/firewall/firewall.cpp:1266-1295 | One more registration in the open transaction; the committed state does not change |
| `Firewall.Firewall.RegisterAppBecomingUnsplit` | nym-vpn-windows/split-tunnel-driver/nymvpn-split-tunnel/firewall/firewall.cpp:1298-1313 | One registration less in the open transaction; fails for an image that is not registered |
| `WireFormat.ValidateBufferRangeExact` | nym-vpn-windows/split-tunnel-driver/nymvpn-split-tunnel/util.cpp:121-134 | Despite wrap-around, exactly the ranges that fit are accepted |
| `WireFormat.ValidateUserBuffer` | nym-vpn-windows/split-tunnel-driver/nymvpn-split-tunnel/validation.cpp:11-109 | Accepts a buffer if and only if it does not wrap, its length is as stated, its string area is not empty, and all entries and all non-empty strings are inside |
| `WireFormat.AcceptedLength` | nym-vpn-windows/split-tunnel-driver/nymvpn-split-tunnel/validation.cpp:11-109 | A buffer that is accepted is no longer accepted when anything is appended, and so cannot be cut short either |
| `WireFormat.EntryCountFitsInt` | nym-vpn-windows/split-tunnel-driver/nymvpn-split-tunnel/driverentry.cpp:41 | An accepted request under the size cap has fewer than 2^31 entries |
| `ConfigurationBuffers.SerializeEntry` | nym-vpn-windows/split-tunnel-driver/nymvpn-split-tunnel/ioctl.cpp:266-288 | One entry and its string at the advancing positions; no other byte changes |
| `ConfigurationBuffers.SerializeConfiguration` | nym-vpn-windows/split-tunnel-driver/nymvpn-split-tunnel/ioctl.cpp:1011-1030 | The buffer holds exactly the given entries, and bytes beyond it are untouched |
| `ConfigurationBuffers.MakeConfiguration` | nym-vpn-windows/split-tunnel-driver/testing/stconsole.cpp:152-193 | The buffer holds exactly the given names |
| `ConfigurationBuffers.MakeConfigurationRoundTrip` | nym-vpn-windows/split-tunnel-driver/testing/stconsole.cpp:152-193 | Names that are not all empty and short enough are accepted; the first of those that differ in case only is parsed back, in lower case and in order, and without such names all are |
| `ConfigurationBuffers.TablesDisagree` | nym-vpn-windows/split-tunnel-driver/nymvpn-split-tunnel/containers/registeredimage.cpp:120-149 | A name that does not compare equal to its lower case is stored as often as it is added |
| `ConfigurationBuffers.StoredDistinctExactly` | nym-vpn-windows/split-tunnel-driver/nymvpn-split-tunnel/containers/registeredimage.cpp:120-149 | No list of entries leads to a name being stored twice if and only if every name compares equal to its lower case |
| `ConfigurationBuffers.GetConfigurationComplete` | nym-vpn-windows/split-tunnel-driver/nymvpn-split-tunnel/ioctl.cpp:942-1035 | Writes exactly the required length, or the required length itself into a buffer of eight bytes, or nothing |
| `ConfigurationBuffers.ListImageNames` | nym-vpn-windows/split-tunnel-driver/testing/stconsole.cpp:271-324 | User mode lists exactly the stored names from a serialized configuration |
| `ConfigurationBuffers.StorableRun` | nym-vpn-windows/split-tunnel-driver/nymvpn-split-tunnel/containers/registeredimage.cpp:57-149 | In every state of every run, stored names are in lower case, distinct without regard to case, and short enough |
| `ConfigurationBuffers.StoredRoundTrip` | nym-vpn-windows/split-tunnel-driver/nymvpn-split-tunnel/ioctl.cpp:818-1035 | A serialized stored configuration is accepted again if and only if some name is not empty, and is then parsed to the same names and flags |
| `ConfigurationBuffers.StringsTile` | nym-vpn-windows/split-tunnel-driver/nymvpn-split-tunnel/ioctl.cpp:244-288 | The strings follow each other without gap or overlap and fill the string area |
| `ProcessBuffers.ClearRecycledParents` | nym-vpn-windows/split-tunnel-driver/testing/proc.cpp:159-179 | A parent link survives exactly if the parent is listed, has a creation time and is strictly older; order of visits plays no part |
| `ProcessBuffers.UnrecycledForest` | nym-vpn-windows/split-tunnel-driver/testing/proc.cpp:159-179 | A link survives exactly if it leads to a listed, strictly older process with a known creation time, and nothing else changes, so that the loaded registry is a forest |
| `ProcessBuffers.PackageProcessInfo` | nym-vpn-windows/split-tunnel-driver/testing/proc.cpp:209-280 | The buffer holds exactly the given processes; an empty list is refused |
| `ProcessBuffers.ProcessRoundTrip` | nym-vpn-windows/split-tunnel-driver/nymvpn-split-tunnel/ioctl.cpp:1075-1155 | A packed list is accepted if and only if some path is not empty, and is loaded as the same ids, parents and folded paths |
| `ProcessBuffers.PayloadIsAdmissible` | nym-vpn-windows/split-tunnel-driver/testing/proc.cpp:282-285 | The process list that user mode sends has no cycle of parent links |
| `StableSort.SortedUnique` | nym-vpn-app/src-tauri/src/commands/gateway.rs:126-131 | There is only one stably sorted order, whatever the algorithm |
| `StableSort.FilterCommutesWithSort` | nym-vpn-app/src-tauri/src/commands/gateway.rs:126-131 | Filtering before or after a stable sort makes no difference |
| `Gateways.FoldCountries` | nym-vpn-app/src-tauri/src/commands/gateway.rs:93-121 | The map has exactly the codes that occur, each with its gateways in order and marked quic if one of them is |
| `Gateways.FoldRegions` | nym-vpn-app/src-tauri/src/commands/gateway.rs:54-79 | The same for the regions of a country |
| `Gateways.GroupByCountry` | nym-vpn-app/src-tauri/src/commands/gateway.rs:93-124 | One group for each code, ordered by name |
| `Gateways.GroupByRegion` | nym-vpn-app/src-tauri/src/commands/gateway.rs:47-91 | Each country gets one region for each region name, ordered by name and sorted by performance |
| `Gateways.GetGateways` | nym-vpn-app/src-tauri/src/commands/gateway.rs:161-164 | One country for each code that occurs, ordered by name, with its regions, its gateways sorted by performance and its quic flag; ListedBestFirst says what that order is |
| `Gateways.SortByPerfStable` | nym-vpn-app/src-tauri/src/commands/gateway.rs:126-131 | On gateways of one kind the sort is the only stable one; SortByPerfBestFirst says which gateways come first |
| `Gateways.ListedBestFirst` | nym-vpn-app/src-tauri/src/commands/gateway.rs:126-131 | In every list of a country or region, no gateway comes before one with a strictly better score: high over medium over low over offline, by the WireGuard score for gateways of that kind and by the mixnet score for all others |
| `Gateways.ListedInPlace` | nym-vpn-app/src-tauri/src/commands/gateway.rs:47-124 | Every country is described by its first gateway and holds exactly the gateways with its code, and each of its regions exactly those of that region |
| `Gateways.ListedByName` | nym-vpn-app/src-tauri/src/commands/gateway.rs:81-124 | Countries and regions are in the order of their names |
| `Gateways.RegionsFilterCountries` | nym-vpn-app/src-tauri/src/commands/gateway.rs:47-138 | For gateways of one kind, each list of a region is the list of its country filtered to the region, in the same order, and each list of a country is the sorted input filtered to the country |
| `Gateways.CountriesPermute` | nym-vpn-app/src-tauri/src/commands/gateway.rs:93-124 | The countries together list exactly the gateways given, each as often as it was given |
| `Gateways.RegionsPermute` | nym-vpn-app/src-tauri/src/commands/gateway.rs:47-91 | The regions of a country together list exactly its gateways |
| `Gateways.ListedExactQuic` | nym-vpn-app/src-tauri/src/commands/gateway.rs:58-119 | A group is marked quic if and only if it lists a quic gateway |
| `NodeList.GatewaysToUi` | nym-vpn-app/src/hooks/useNodeListData.ts:34-53 | The gateways that pass the filter, in order, each with how it is selected |
| `NodeList.RegionsToUi` | nym-vpn-app/src/hooks/useNodeListData.ts:55-77 | The regions that have something to show |
| `NodeList.BuildNodeList` | nym-vpn-app/src/hooks/useNodeListData.ts:79-128 | The countries that are marked and have something to show, sorted stably by label |
| `NodeList.ShortcutAgrees` | nym-vpn-app/src/hooks/useNodeListData.ts:89 | Skipping unmarked countries gives the same list as looking at their gateways if and only if no unmarked country has a quic gateway; otherwise it is shorter |
| `NodeList.ScreenTruthful` | nym-vpn-app/src/hooks/useNodeListData.ts:22-128 | Every country, region and gateway on the screen is one of the list, with its own data, its translated name if there is one and the mark for its selection; countries are in the order of their labels |
| `NodeList.IsSelectedNodeType` | nym-vpn-app/src/types/node.ts:52-67 | Entry hides exit, except on a country that is both |
| `NodeList.EachGatewayShownOnce` | nym-vpn-app/src/hooks/useNodeListData.ts:79-128 | From fetched gateways to screen: the shortcut loses nothing, every gateway that passes is shown once under its country and once under the regions of that country |
| `HandleContainer.Container.Insert` | wireguard/libwg/container/container.go:29-46 | Stores under the least free handle, or fails and changes nothing if all are taken |
| `HandleContainer.Container.Get` | wireguard/libwg/container/container.go:48-57 | The context under the handle, or an error |
| `HandleContainer.Container.Remove` | wireguard/libwg/container/container.go:59-69 | Returns and frees the context, or an error |
| `HandleContainer.HandleLeadsToLastInserted` | wireguard/libwg/container/container.go:29-69 | At every point of every run a handle leads to the context last inserted under it and not removed since |
| `HandleContainer.InsertedBelowPeak` | wireguard/libwg/container/container.go:33-45 | Every handle issued was free and is below the peak number of live contexts |
| `HandleContainer.LiveBelowPeak` | wireguard/libwg/container/container.go:29-69 | Every live handle is below the peak number of live contexts |
| `HandleContainer.FullExactly` | wireguard/libwg/container/container.go:40-42 | An insertion fails if and only if all 2^31 - 1 handles are taken |
| `ListSplice.CircularUnique` | nym-vpn-windows/split-tunnel-driver/nymvpn-split-tunnel/util.cpp:10-38 | The links of a head determine its nodes and their order |
| `ListSplice.ReparentList` | nym-vpn-windows/split-tunnel-driver/nymvpn-split-tunnel/util.cpp:10-38 | The destination holds exactly the nodes of the source, in order and in both directions, and the source is empty |
| `Rounding.MaskRoundsDown` | nym-vpn-windows/split-tunnel-driver/nymvpn-split-tunnel/util.h:25-27 | Clearing the lowest k bits rounds down to a multiple of 2^k |
| `Rounding.RoundsUpExactly` | nym-vpn-windows/split-tunnel-driver/nymvpn-split-tunnel/util.h:25-27 | For every power of two, the least multiple that is no less than the value, if and only if the sum does not wrap; zero if it does |

## Left out

- Driver.Driver.HandleRequest: asks that no ancestry walk without end is set off (`Completes`), as the code would not return; read-only requests (state, addresses, configuration and process queries) are one request that changes nothing, and the event queue's own request is not modelled.
- DriverTheorems.FaithfulRun: holds for runs of quiet steps only, because announced hybrid arrivals and departures that the firewall could not be told about make it false of other runs; `FaithfulStep` is exact.
- DriverTheorems.StableRun: holds for undisturbed steps only, for the same kind of reason; `StableStep` is exact.
- DriverRuns.AcyclicRun: holds for admissible steps only, as an arrival can close a cycle; `AcyclicStep` is exact.
- ConfigurationBuffers.StorableRun: asks that a name and its lower case compare equal, that lower case is final, and that it takes up the same room.
- Firewall.Firewall.TransactionAbort: aborting always succeeds here; where it fails, the code reports and logs that and carries on with the transaction still open.
- WfpEngine: the filters of a splitting mode are recorded by address family, kind and tunnel address, not by condition, weight and sublayer; the inbound and outbound filters of an image one entry; the dummy filters that force reauthorization are told apart only as being part of a transaction or not.
- WireFormat.ValidateUserBuffer: both validators are one method, as they differ in the layout only; 64-bit addresses.
- ConfigurationBuffers.MakeConfiguration: user mode and driver share one serialization loop, the same in both.
- Gateways.RegionsFilterCountries: for gateways of one kind, as for mixed kinds the comparison is not an order and the sort is unspecified.
- ListSplice.ReparentList: the destination is not one of the nodes that it is to receive.
- Rounding.RoundsUpExactly: powers of two only, as the code demands of its callers.
- The queue in which process events wait until they are dispatched: an event is an input when it is dispatched.
- Locks, interrupt levels, tracing, work items and memory management of the kernel.
- Events that cannot be allocated or that the event queue drops when it is full: the log is unbounded, except that an event for an arrival may be missing.
- The cached pointer to a process's parent: parents are looked up by id.
- Callouts and the classification of connections.
- The system's character tables: two functions, of which proofs ask no more than `CaseConsistent` or `Folds` say.
- Block-list entries and image-set entries are told apart by image name, not by pointer, as names are distinct.
- Collation of names: `nameLe` and `labelLe` are any total preorder; the order of hash map values is arbitrary.
- Selecting gateways, languages and store state in the hook around `buildNodeList`; the flat list of gateways that it also sorts.
- The mutex of the handle container and its `ForEach`.
- `IsEmptyRange`, string helpers, TCP and UDP forwarding, and all other parts of the repository.
