/**
 Runs in which things go otherwise than one might expect. All of them start from a driver that has just been
 loaded, and none of them needs more than a few requests and process events.
 */
module DriverWitnesses {
  import opened SplitTypes
  import opened Ancestry
  import opened Propagation
  import opened Conservation
  import opened EventLog
  import opened WfpEngine
  import opened AppFilters
  import opened Firewall
  import opened DriverSteps
  import opened DriverRuns
  import opened DriverTheorems
  import W = WireFormat
  import Packing
  import ConfigurationBuffers

  // ----- Reachable states -----

  ghost predicate ReachedBy(fold: CaseFolding, steps: seq<Step>, states: seq<State>, s: State) {
    Run(fold, steps, states) && states[|steps|] == s
  }

  ghost predicate Reachable(fold: CaseFolding, s: State) {
    exists steps, states :: ReachedBy(fold, steps, states, s)
  }

  lemma ReachableInitial(fold: CaseFolding)
    ensures Reachable(fold, INITIAL_STATE)
  {
    assert ReachedBy(fold, [], [INITIAL_STATE], INITIAL_STATE);
  }

  lemma ReachableNext(fold: CaseFolding, step: Step, s: State, s': State)
    requires Reachable(fold, s) && Next(fold, step, s, s')
    ensures Reachable(fold, s')
  {
    hide Next;
    var steps, states :| ReachedBy(fold, steps, states, s);
    RunSnoc(fold, steps, states, step, s');
    assert ReachedBy(fold, steps + [step], states + [s'], s');
  }

  // ----- A driver without processes -----

  /** A system without letter case. */
  function Caseless(): CaseFolding {
    CaseFolding(name => name, name => name)
  }

  /** No processes, and a string area that is not empty, as it has to be. */
  const NO_PROCESSES: W.Buffer := Packing.HeaderBytes(0, 17) + [0]

  lemma NoProcessesAccepted()
    ensures W.WellFormed(W.PROCESSES, NO_PROCESSES) && W.NumEntries(NO_PROCESSES) == 0
  {
    hide W.Word, W.Encode;
    assert NO_PROCESSES[..16] == Packing.HeaderBytes(0, 17);
    Packing.HeaderWords(NO_PROCESSES, 0, 17);
  }

  const READY :=
    State(Ready, NO_ADDRESSES, INITIAL_STATE.pool.Create([]), Some(0), map[], FW_OFF, [], multiset{}, ALL_SUBSYSTEMS)

  lemma ReadyReachable(fold: CaseFolding)
    ensures Reachable(fold, READY)
  {
    hide W.WellFormed, Packing.HeaderBytes, Reachable;
    ReachableInitial(fold);
    NoProcessesAccepted();
    var initialized := READY.(phase := Initialized);
    ReachableNext(fold, Serve(Initialize, true), INITIAL_STATE, initialized);
    assert Loaded(fold, NO_PROCESSES, 0, map[]);
    ReachableNext(fold, Serve(RegisterProcesses(NO_PROCESSES), true), initialized, READY);
  }

  // ----- A configuration -----

  const SPLIT: ImageName := [65, 0]
  const HYBRID: ImageName := [66, 0]
  const OTHER: ImageName := [67, 0]

  const ENTRIES: seq<RawEntry> := [RawEntry(SPLIT, 0), RawEntry(HYBRID, 1)]
  const IMAGES: ImageSet := [ImageEntry(SPLIT, 0), ImageEntry(HYBRID, 1)]

  function EntryBytes(offset: nat, flags: nat): (bytes: W.Buffer)
    ensures |bytes| == 16
  {
    ConfigurationBuffers.ConfigurationBytes(offset, 2, flags, [0, 0, 0, 0])
  }

  const CONFIGURATION: W.Buffer := Packing.HeaderBytes(2, 52) + EntryBytes(0, 0) + EntryBytes(2, 1) + SPLIT + HYBRID

  lemma ConfigurationFilled()
    ensures ConfigurationBuffers.Names(ENTRIES) == [SPLIT, HYBRID]
    ensures |CONFIGURATION| == 52 == Packing.PackedLength(W.CONFIGURATION, [SPLIT, HYBRID])
    ensures Packing.Filled(W.CONFIGURATION, CONFIGURATION, [EntryBytes(0, 0), EntryBytes(2, 1)], [SPLIT, HYBRID])
    ensures CONFIGURATION[..16] == Packing.HeaderBytes(2, 52)
  {
    hide W.Encode, Packing.HeaderBytes, EntryBytes;
    var names, b := [SPLIT, HYBRID], CONFIGURATION;
    assert W.EntryAt(W.CONFIGURATION, 1) == 32 && W.EntryAt(W.CONFIGURATION, 2) == 48;
    assert Packing.Offset(names, 1) == 2 && Packing.Offset(names, 2) == 4;
    assert b[16..32] == EntryBytes(0, 0) && b[32..48] == EntryBytes(2, 1);
    assert b[48..50] == SPLIT && b[50..52] == HYBRID;
    assert Packing.EntryBytes(W.CONFIGURATION, b, 0) == b[16..32];
    assert Packing.EntryBytes(W.CONFIGURATION, b, 1) == b[32..48];
    assert Packing.NameBytes(W.CONFIGURATION, b, names, 0) == b[48..50];
    assert Packing.NameBytes(W.CONFIGURATION, b, names, 1) == b[50..52];
  }

  lemma ConfigurationHolds()
    ensures ConfigurationBuffers.Holds(CONFIGURATION, ENTRIES)
  {
    hide W.Encode, Packing.HeaderBytes, Packing.Filled, ConfigurationBuffers.Holds;
    hide ConfigurationBuffers.ConfigurationBytes;
    ConfigurationFilled();
    var table, names := [EntryBytes(0, 0), EntryBytes(2, 1)], [SPLIT, HYBRID];
    assert Packing.Offset(names, 0) == 0 && Packing.Offset(names, 1) == 2;
    var padding: W.Buffer := [0, 0, 0, 0];
    assert |padding| == ConfigurationBuffers.PADDING_SIZE;
    assert table[0] == ConfigurationBuffers.ConfigurationBytes(Packing.Offset(names, 0), 2, 0, padding);
    assert table[1] == ConfigurationBuffers.ConfigurationBytes(Packing.Offset(names, 1), 2, 1, padding);
    assert ConfigurationBuffers.EntryFor(table[0], names, 0, ENTRIES[0]);
    assert ConfigurationBuffers.EntryFor(table[1], names, 1, ENTRIES[1]);
    ConfigurationBuffers.FinishedHolds(CONFIGURATION, table, ENTRIES);
  }

  lemma EntriesDiffer()
    ensures ConfigurationBuffers.Packable(ENTRIES) && ConfigurationBuffers.CaseConsistent(Caseless())
    ensures ConfigurationBuffers.DistinctWhenFolded(Caseless(), ENTRIES)
    ensures ConfigurationBuffers.FoldedImages(Caseless(), ENTRIES) == IMAGES
  {
    assert ENTRIES[0].name != [];
  }

  lemma ConfigurationParsed()
    ensures W.WellFormed(W.CONFIGURATION, CONFIGURATION) && W.NumEntries(CONFIGURATION) == 2
    ensures ImagesOf(Caseless(), CONFIGURATION, 2) == IMAGES
  {
    hide W.WellFormed, ConfigurationBuffers.Holds, ImagesOf, ConfigurationBuffers.Packable;
    hide ConfigurationBuffers.CaseConsistent, ConfigurationBuffers.DistinctWhenFolded, ConfigurationBuffers.FirstImages;
    ConfigurationHolds();
    EntriesDiffer();
    ConfigurationBuffers.HeldAccepted(CONFIGURATION, ENTRIES);
    ConfigurationBuffers.ParsedImages(Caseless(), CONFIGURATION, ENTRIES, 2);
    ConfigurationBuffers.AllFirst(Caseless(), ENTRIES, 2);
  }

  /** The configuration is stored, and there are processes, but no tunnel. */
  function Configured(r: Registry): State {
    State(Ready, NO_ADDRESSES, ImagePool(map[1 := IMAGES], 2, 1), Some(1), r, FW_OFF, [], multiset{}, ALL_SUBSYSTEMS)
  }

  lemma ConfigurationReplaced()
    ensures ReplaceConfigurationStep(IMAGES, READY, Configured(map[]), true)
  {
    assert READY.pool.Create(IMAGES).TearDown(0) == Configured(map[]).pool;
    assert !VpnActive(NO_ADDRESSES);
  }

  lemma ConfiguredReachable()
    ensures Reachable(Caseless(), Configured(map[]))
  {
    hide W.WellFormed, ImagesOf, Reachable, W.NumEntries, ReplaceConfigurationStep;
    ReadyReachable(Caseless());
    ConfigurationParsed();
    ConfigurationReplaced();
    assert SetConfigurationStep(Caseless(), CONFIGURATION, READY, Configured(map[]), true);
    ReachableNext(Caseless(), Serve(SetConfiguration(CONFIGURATION), true), READY, Configured(map[]));
  }

  /** Without a tunnel, any process may arrive under any parent. */
  lemma ArrivalReachable(r: Registry, p: Pid, parent: Pid, image: ImageName)
    requires Reachable(Caseless(), Configured(r)) && p !in r
    ensures Reachable(Caseless(), Configured(r[p := FreshEntry(parent, image, Off)]))
  {
    hide Reachable;
    ReachableNext(Caseless(), Arrive(p, parent, image, true, true), Configured(r),
                  Configured(r[p := FreshEntry(parent, image, Off)]));
  }

  // ----- A cycle of parent links -----

  /** A child arrives before its parent does, and the parent's parent id is that of the child. */
  const ADOPTED: Registry := map[1 := FreshEntry(2, OTHER, Off)]
  const CYCLE: Registry := map[1 := FreshEntry(2, OTHER, Off), 2 := FreshEntry(1, OTHER, Off)]

  lemma {:induction false} CycleGoesOn(p: Pid, n: nat)
    requires p in CYCLE
    ensures !WalkEndsAt(CYCLE, IMAGES, p, n)
    decreases n
  {
    assert ParentOf(CYCLE, 1) == Some(2) && ParentOf(CYCLE, 2) == Some(1);
    assert Lookup(IMAGES, OTHER).None?;
    assert Seed(IMAGES, CYCLE[p]) == Off;
    if n > 0 {
      CycleGoesOn(if p == 1 then 2 else 1, n - 1);
    }
  }

  /** A registry with a dangling link is reachable, and so is one with a cycle. If a tunnel were to come up
      then, propagation would not end. */
  lemma CycleReachable()
    ensures Reachable(Caseless(), Configured(ADOPTED)) && Acyclic(ADOPTED) && !Closed(ADOPTED)
    ensures Reachable(Caseless(), Configured(CYCLE)) && !Acyclic(CYCLE)
    ensures Configuration(Configured(CYCLE)) == IMAGES && !WalkEnds(CYCLE, IMAGES, 1)
    ensures !Completes(Caseless(), RegisterIpAddresses(IPS), Configured(CYCLE))
  {
    hide Reachable;
    ConfiguredReachable();
    ArrivalReachable(map[], 1, 2, OTHER);
    assert map[][1 := FreshEntry(2, OTHER, Off)] == ADOPTED;
    ArrivalReachable(ADOPTED, 2, 1, OTHER);
    assert ADOPTED[2 := FreshEntry(1, OTHER, Off)] == CYCLE;
    assert Ranks(map[1 := 0], ADOPTED);
    assert 1 in ADOPTED && ADOPTED[1].parent == 2;
    DanglingLinkClosesCycle();
    forall n: nat
      ensures !WalkEndsAt(CYCLE, IMAGES, 1, n)
    {
      CycleGoesOn(1, n);
    }
    TunnelWorks();
    assert 1 in CYCLE;
  }

  lemma DanglingLinkClosesCycle()
    ensures ClosesCycle(ADOPTED, 2, 1) && !Acyclic(CYCLE)
  {
    assert 1 in ADOPTED && LinkedAt(ADOPTED, 1, 2, 0);
    assert ADOPTED[2 := FreshEntry(1, OTHER, Off)] == CYCLE;
    ClosedCycle(ADOPTED, 2, FreshEntry(1, OTHER, Off));
  }

  // ----- A tunnel -----

  const IPS := IpAddresses([10, 0, 0, 1], [192, 168, 0, 1], IPV6_ANY, IPV6_ANY)

  lemma TunnelWorks()
    ensures VpnActive(IPS) && DetermineSplittingMode(IPS) == Some(2)
  {
    assert IPS.tunnelV4[0] != 0 && IPS.internetV4[0] != 0;
    assert !IsSet(IPV6_ANY);
  }

  function EngagedState(r: Registry, blocked: BlockList, log: Log): State {
    Configured(r).(phase := Engaged, ips := IPS, fw := FwView(Some(IPS), blocked), log := log)
  }

  lemma EngagedReachable(r: Registry, r': Registry, blocked: BlockList, log: Log)
    requires Reachable(Caseless(), Configured(r))
    requires SyncStep(EngagedState(r, [], []), EngagedState(r', blocked, log), true, false)
    ensures Reachable(Caseless(), EngagedState(r', blocked, log))
  {
    hide Reachable, SyncStep, DetermineSplittingMode;
    TunnelWorks();
    var s, s' := Configured(r), EngagedState(r', blocked, log);
    assert SyncStep(s.(fw := FwView(Some(IPS), []), phase := Engaged), s'.(ips := s.ips), true, false) by {
      SyncIgnoresIps(EngagedState(r, [], []), s', s.ips);
    }
    assert s'.(ips := s.ips).phase == Engaged;
    ReachableNext(Caseless(), Serve(RegisterIpAddresses(IPS), true), s, s');
  }

  lemma SyncIgnoresIps(s: State, s': State, ips: IpAddresses)
    requires HasInstance(s) && SyncStep(s, s', true, false)
    ensures SyncStep(s.(ips := ips), s'.(ips := ips), true, false)
  {
    hide Announces, Synced, Surplus, Committed, Complains;
  }

  /** Nothing to synchronize. */
  lemma IdleReachable()
    ensures Reachable(Caseless(), EngagedState(map[], [], []))
  {
    hide Reachable, Committed;
    ConfiguredReachable();
    TunnelWorks();
    var s := EngagedState(map[], [], []);
    assert Synced(map[], IMAGES) == map[];
    assert Committed(s.fw) by {
      EmptyCommitted();
    }
    assert AnnouncedFrom([], [], map[], map[], 0, 0);
    assert SyncStep(s, s, true, false);
    EngagedReachable(map[], map[], [], []);
  }

  lemma EmptyCommitted()
    ensures Committed(FwView(Some(IPS), []))
  {
    TunnelWorks();
  }

  /** The tunnel comes up, but synchronizing fails, and so does disabling splitting again. */
  lemma FailedRollbackReachable() returns (s: State)
    ensures Reachable(Caseless(), s) && RollbackFailed(s)
  {
    hide Reachable, DetermineSplittingMode;
    ConfiguredReachable();
    TunnelWorks();
    s := Configured(map[]).(fw := FwView(Some(IPS), []), log := [ErrorMessage, ErrorMessage]);
    ReachableNext(Caseless(), Serve(RegisterIpAddresses(IPS), false), Configured(map[]), s);
  }

  // ----- Arrivals while engaged -----

  const IDLE := EngagedState(map[], [], [])

  lemma Lookups()
    ensures Lookup(IMAGES, SPLIT) == Some(0) && Lookup(IMAGES, HYBRID) == Some(1) && Lookup(IMAGES, OTHER) == None
  {
    assert LookupFrom(IMAGES, HYBRID, 1) == Some(1);
    assert LookupFrom(IMAGES, OTHER, 2) == None;
    assert LookupFrom(IMAGES, OTHER, 1) == None;
  }

  const HYBRID_LOG: Log := [StartSplitting(7, Arriving(true), HYBRID)]
  const WITH_HYBRID := EngagedState(map[7 := FreshEntry(0, HYBRID, HybridByConfig)], [], HYBRID_LOG)

  lemma HybridArrives()
    ensures Next(Caseless(), Arrive(7, 0, HYBRID, true, true), IDLE, WITH_HYBRID)
  {
    Lookups();
    assert map[][7 := FreshEntry(0, HYBRID, HybridByConfig)] == WITH_HYBRID.registry;
    assert [] + ArrivalEvents(7, HYBRID, HybridByConfig) == HYBRID_LOG;
  }

  lemma HybridReplayed()
    ensures Replay(HYBRID_LOG) == {7} && SplittingSet(WITH_HYBRID.registry) == {}
  {
    ReplaySnoc([], HYBRID_LOG[0]);
    assert [] + [HYBRID_LOG[0]] == HYBRID_LOG;
  }

  /** An arriving hybrid process is announced, and a client then believes that it is splitting. */
  lemma HybridArrivalMisleads()
    ensures Reachable(Caseless(), IDLE) && Next(Caseless(), Arrive(7, 0, HYBRID, true, true), IDLE, WITH_HYBRID)
    ensures Faithful(IDLE.log, IDLE.registry) && !Faithful(WITH_HYBRID.log, WITH_HYBRID.registry)
    ensures Replay(WITH_HYBRID.log) == {7} && SplittingSet(WITH_HYBRID.registry) == {}
  {
    hide Reachable, Next, Replay, Alternates, SplittingSet;
    IdleReachable();
    HybridArrives();
    HybridReplayed();
    NothingSplittingFaithful(map[]);
  }

  function WithSplitting(r: Registry, log: Log): State {
    EngagedState(r[7 := FreshEntry(0, SPLIT, OnByConfig)], [], log + [StartSplitting(7, Arriving(true), SPLIT)])
  }

  /** A process arrives as splitting, in a state that does not know it yet. */
  lemma SplittingArrives(r: Registry, log: Log)
    requires Reachable(Caseless(), EngagedState(r, [], log)) && 7 !in r
    ensures Next(Caseless(), Arrive(7, 0, SPLIT, true, true), EngagedState(r, [], log), WithSplitting(r, log))
    ensures Reachable(Caseless(), WithSplitting(r, log))
  {
    hide Reachable;
    Lookups();
    ReachableNext(Caseless(), Arrive(7, 0, SPLIT, true, true), EngagedState(r, [], log), WithSplitting(r, log));
  }

  /** A process that arrives as splitting does so without firewall state. */
  lemma SplittingWithoutState()
    ensures Reachable(Caseless(), IDLE) && StateIffSplitting(IDLE.registry)
    ensures Next(Caseless(), Arrive(7, 0, SPLIT, true, true), IDLE, WithSplitting(map[], []))
    ensures !StateIffSplitting(WithSplitting(map[], []).registry)
  {
    hide Reachable, Next;
    IdleReachable();
    SplittingArrives(map[], []);
    assert 7 in WithSplitting(map[], []).registry;
  }

  lemma IdleStable()
    ensures Stable(map[], IMAGES)
  {
  }

  /** A hybrid process arrives under a splitting parent and stays hybrid. */
  lemma HybridChildDisturbs() returns (s': State)
    ensures Reachable(Caseless(), WithSplitting(map[], [])) && EngagedStable(WithSplitting(map[], []))
    ensures Next(Caseless(), Arrive(8, 7, HYBRID, true, true), WithSplitting(map[], []), s') && !EngagedStable(s')
  {
    hide Reachable;
    IdleReachable();
    SplittingArrives(map[], []);
    Lookups();
    var s := WithSplitting(map[], []);
    FirstSplittingStable();
    assert ParentSplits(s.registry, 7);
    s' := EngagedState(s.registry[8 := FreshEntry(7, HYBRID, HybridByConfig)], [],
                       s.log + [StartSplitting(8, Arriving(true), HYBRID)]);
    assert ArrivalStep(8, 7, HYBRID, s, s', true, true);
    ArrivalRefinesSync(s.registry, IMAGES, 8, 7, HYBRID);
  }

  lemma FirstSplittingStable()
    ensures Stable(WithSplitting(map[], []).registry, IMAGES)
  {
    Lookups();
    IdleStable();
    ArrivalRefinesSync(map[], IMAGES, 7, 0, SPLIT);
  }

  /** A process that does not split is adopted by a splitting parent that arrives after it. */
  lemma AdoptionDisturbs() returns (s: State, s': State)
    ensures Reachable(Caseless(), s) && EngagedStable(s)
    ensures Next(Caseless(), Arrive(7, 0, SPLIT, true, true), s, s') && !EngagedStable(s')
  {
    hide Reachable;
    IdleReachable();
    Lookups();
    var r: Registry := map[8 := FreshEntry(7, OTHER, Off)];
    s := EngagedState(r, [], []);
    assert map[][8 := FreshEntry(7, OTHER, Off)] == r;
    ReachableNext(Caseless(), Arrive(8, 7, OTHER, true, false), IDLE, s);
    IdleStable();
    ArrivalRefinesSync(map[], IMAGES, 8, 7, OTHER);
    SplittingArrives(r, []);
    s' := WithSplitting(r, []);
    assert 8 in r && AdoptedIdle(r, 7, 8);
    ArrivalRefinesSync(r, IMAGES, 7, 0, SPLIT);
  }

  // ----- Departures while engaged -----

  /** A parent that is to split, and a hybrid child that does so by inheritance. */
  const FAMILY: Registry := map[1 := FreshEntry(0, SPLIT, Off), 2 := FreshEntry(1, HYBRID, Off)]

  function SplitEntry(parent: Pid, image: ImageName, split: SplitStatus): Entry {
    Entry(parent, image, Settings(split, true), Settings(split, true), SETTINGS_OFF)
  }

  const SPLIT_FAMILY: Registry :=
    map[1 := SplitEntry(0, SPLIT, OnByConfig), 2 := SplitEntry(1, HYBRID, OnByInheritance)]

  function Block(image: ImageName): BlockEntry {
    BlockEntry(image, 1, ActiveTunnel(IPS))
  }

  const FAMILY_LOG: Log := [StartSplitting(1, ByConfig, SPLIT), StartSplitting(2, ByConfig, HYBRID)]
  const ENGAGED_FAMILY := EngagedState(SPLIT_FAMILY, [Block(SPLIT), Block(HYBRID)], FAMILY_LOG)

  lemma FamilySynced()
    ensures Synced(FAMILY, IMAGES) == SPLIT_FAMILY
  {
    Lookups();
    assert ParentOf(FAMILY, 1) == None && ParentOf(FAMILY, 2) == Some(1);
    SplitsFromParent(FAMILY, IMAGES, 1);
    SplitsFromParent(FAMILY, IMAGES, 2);
  }

  lemma FamilyRegistered(image: ImageName)
    ensures RefCount([Block(SPLIT), Block(HYBRID)], image) == Users(SPLIT_FAMILY, image)
    ensures Users(FAMILY, image) == 0 == RefCount([], image)
    ensures Users(SPLIT_FAMILY, image) == if image == SPLIT || image == HYBRID then 1 else 0
  {
    var list := [Block(SPLIT), Block(HYBRID)];
    IndexIs(list, image, if image == SPLIT then 0 else if image == HYBRID then 1 else 2);
    assert UserSet(FAMILY, image) == {};
    assert UserSet(SPLIT_FAMILY, image) == if image == SPLIT then {1} else if image == HYBRID then {2} else {};
  }

  lemma FamilyAnnounced()
    ensures AnnouncedFrom([], FAMILY_LOG, FAMILY, SPLIT_FAMILY, 0, 0)
  {
    assert FAMILY_LOG[..0] == [] && FAMILY_LOG[0..] == FAMILY_LOG;
    assert FAMILY_LOG[0] in FAMILY_LOG && FAMILY_LOG[1] in FAMILY_LOG;
  }

  lemma FamilyReachable()
    ensures Reachable(Caseless(), ENGAGED_FAMILY)
  {
    hide Reachable, Users, RefCount, Synced, AnnouncedFrom, Committed;
    ConfiguredReachable();
    var r: Registry := map[1 := FreshEntry(0, SPLIT, Off)];
    ArrivalReachable(map[], 1, 0, SPLIT);
    assert map[][1 := FreshEntry(0, SPLIT, Off)] == r;
    ArrivalReachable(r, 2, 1, HYBRID);
    assert r[2 := FreshEntry(1, HYBRID, Off)] == FAMILY;
    FamilySynced();
    FamilyAnnounced();
    FamilyCommitted();
    forall image {
      FamilyRegistered(image);
    }
    EngagedReachable(FAMILY, SPLIT_FAMILY, [Block(SPLIT), Block(HYBRID)], FAMILY_LOG);
  }

  lemma FamilyCommitted()
    ensures Committed(FwView(Some(IPS), [Block(SPLIT), Block(HYBRID)]))
  {
    TunnelWorks();
  }

  /** A departure whose firewall update fails leaves a registration behind that no process accounts for. */
  lemma RegistrationLeaks() returns (s': State)
    ensures Reachable(Caseless(), ENGAGED_FAMILY) && Reachable(Caseless(), s')
    ensures Next(Caseless(), Depart(1, false), ENGAGED_FAMILY, s')
    ensures s'.leaked == multiset{SPLIT}
    ensures RefCount(s'.fw.blocked, SPLIT) == 1 && Users(s'.registry, SPLIT) == 0
  {
    hide Reachable, DepartureStep;
    FamilyReachable();
    s' := Unreleased(1, ENGAGED_FAMILY);
    UnreleasedStep(1, ENGAGED_FAMILY);
    ReachableNext(Caseless(), Depart(1, false), ENGAGED_FAMILY, s');
    FamilyRegistered(SPLIT);
    assert UserSet(s'.registry, SPLIT) == {};
  }

  const ORPHANED := EngagedState(Removed(SPLIT_FAMILY, 1), Unregistered([Block(SPLIT), Block(HYBRID)], SPLIT),
                                 FAMILY_LOG + [StopSplitting(1, Departing, SPLIT)])

  lemma ParentDeparts()
    ensures DepartureStep(1, ENGAGED_FAMILY, ORPHANED, true)
  {
    hide Unregistered, Removed;
    IndexIs([Block(SPLIT), Block(HYBRID)], SPLIT, 0);
    assert 1 in SPLIT_FAMILY;
  }

  lemma HybridOrphaned()
    ensures !Stable(Removed(SPLIT_FAMILY, 1), IMAGES)
  {
    FamilyStable();
    Lookups();
    assert 2 in SPLIT_FAMILY && HybridOrphan(SPLIT_FAMILY, IMAGES, 1, 2);
    DepartureRefinesSync(SPLIT_FAMILY, IMAGES, 1);
  }

  /** When its parent departs, the hybrid child goes on splitting until the next synchronization. */
  lemma OrphanDisturbs()
    ensures Reachable(Caseless(), ENGAGED_FAMILY) && EngagedStable(ENGAGED_FAMILY)
    ensures Next(Caseless(), Depart(1, true), ENGAGED_FAMILY, ORPHANED) && !EngagedStable(ORPHANED)
  {
    hide Reachable, Stable, Unregistered, Removed, DepartureStep;
    FamilyReachable();
    FamilyStable();
    ParentDeparts();
    HybridOrphaned();
  }

  lemma FamilyStable()
    ensures Stable(SPLIT_FAMILY, IMAGES)
  {
    FamilySynced();
    SyncedStable(FAMILY, IMAGES);
  }
}
