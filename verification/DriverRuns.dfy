/** What holds in every state that the driver can reach, whatever fails along the way. */
module DriverRuns {
  import opened SplitTypes
  import opened Ancestry
  import opened Propagation
  import opened Conservation
  import opened EventLog
  import opened AppFilters
  import opened Firewall
  import opened WfpEngine
  import opened DriverSteps
  import W = WireFormat

  // ----- The invariant -----

  /** Only splitting processes have firewall state. */
  ghost predicate StateOnlyIfSplitting(r: Registry) {
    forall p :: p in r && r[p].settings.hasFirewallState ==> SplittingEnabled(r[p].settings.split)
  }

  ghost predicate AllOff(r: Registry) {
    forall p :: p in r ==> r[p].settings == SETTINGS_OFF
  }

  /** The firewall holds one registration of an image for each process with that image and firewall
      state, and beyond that only what departed processes have left behind. */
  ghost predicate Conserved(s: State) {
    forall image :: Surplus(s.fw, s.registry, image) == s.leaked[image]
  }

  /** Every image set created is either torn down or live, and no identity is used twice. */
  ghost predicate PoolAccounted(pool: ImagePool) {
    && (forall id :: id in pool.live ==> id < pool.created)
    && pool.created == pool.tornDown + |pool.live|
  }

  /** The one live image set is the one in use. */
  ghost predicate OwnsInstance(s: State) {
    HasInstance(s) && s.pool.live.Keys == {s.instance.value}
  }

  ghost predicate PhaseInvariant(s: State) {
    match s.phase
    case Started => s == INITIAL_STATE.(pool := s.pool) && s.pool.live == map[]
    case Initialized =>
      && OwnsInstance(s)
      && s == INITIAL_STATE.(phase := Initialized, pool := s.pool, instance := s.instance, subsystems := ALL_SUBSYSTEMS)
    case Ready =>
      && OwnsInstance(s) && s.subsystems == ALL_SUBSYSTEMS
      && !(VpnActive(s.ips) && Configuration(s) != [])
      && AllOff(s.registry) && s.fw.blocked == [] && s.leaked == multiset{}
    case Engaged =>
      && OwnsInstance(s) && s.subsystems == ALL_SUBSYSTEMS
      && VpnActive(s.ips) && Configuration(s) != []
      && s.fw.addresses == Some(s.ips)
    case Zombie =>
      && OwnsInstance(s)
      && s.subsystems == ALL_SUBSYSTEMS - {ProcessMgmt} - if s.fw.addresses.None? then {FirewallContext} else {}
  }

  ghost predicate Inv(s: State) {
    && PoolAccounted(s.pool)
    && PhaseInvariant(s)
    && Committed(s.fw)
    && StateOnlyIfSplitting(s.registry)
    && Conserved(s)
  }

  // ----- Building blocks -----

  lemma PoolCreate(pool: ImagePool, images: ImageSet)
    requires PoolAccounted(pool)
    ensures PoolAccounted(pool.Create(images))
    ensures pool.Create(images).live.Keys == pool.live.Keys + {pool.created}
    ensures pool.created !in pool.live
  {
    assert pool.Create(images).live.Keys == pool.live.Keys + {pool.created};
    assert |pool.live.Keys + {pool.created}| == |pool.live.Keys| + 1;
    assert forall p: ImagePool :: |p.live| == |p.live.Keys|;
  }

  lemma PoolTearDown(pool: ImagePool, id: nat)
    requires PoolAccounted(pool) && id in pool.live
    ensures PoolAccounted(pool.TearDown(id))
    ensures pool.TearDown(id).live.Keys == pool.live.Keys - {id}
  {
    assert pool.TearDown(id).live.Keys == pool.live.Keys - {id};
    assert |pool.live.Keys - {id}| == |pool.live.Keys| - 1;
    assert forall p: ImagePool :: |p.live| == |p.live.Keys|;
  }

  /** An image set that is created and torn down again leaves everything as it was. */
  lemma PoolRoundTrip(pool: ImagePool, images: ImageSet)
    requires PoolAccounted(pool)
    ensures pool.Create(images).TearDown(pool.created)
            == pool.(created := pool.created + 1, tornDown := pool.tornDown + 1)
    ensures PoolAccounted(pool.Create(images).TearDown(pool.created))
  {
    PoolCreate(pool, images);
    PoolTearDown(pool.Create(images), pool.created);
    assert pool.Create(images).live - {pool.created} == pool.live;
  }

  lemma NothingRegistered(fw: FwView, r: Registry)
    requires fw.blocked == [] && forall p :: p in r ==> !r[p].settings.hasFirewallState
    ensures forall image :: Surplus(fw, r, image) == 0
  {
    forall image
      ensures Surplus(fw, r, image) == 0
    {
      NoUsers(r, image);
    }
  }

  lemma UsersSameSettings(r: Registry, r': Registry, image: ImageName)
    requires SameButTargets(r, r')
    ensures Users(r', image) == Users(r, image)
  {
    assert UserSet(r', image) == UserSet(r, image);
  }

  // ----- Preservation -----

  /** The parts of the invariant that are about processes and the firewall. */
  ghost predicate RegistryInv(s: State) {
    Committed(s.fw) && StateOnlyIfSplitting(s.registry) && Conserved(s)
  }

  lemma SyncKeeps(s: State, s': State, ok: bool, force: bool)
    requires HasInstance(s) && SyncStep(s, s', ok, force)
    requires RegistryInv(s)
    ensures RegistryInv(s')
  {
    if !ok {
      forall image {
        UsersSameSettings(s.registry, s'.registry, image);
      }
    }
  }

  lemma EngageKeeps(s: State, ips: IpAddresses, s': State, ok: bool)
    requires HasInstance(s) && EngageStep(s, ips, s', ok)
    requires RegistryInv(s) && AllOff(s.registry) && s.fw.blocked == []
    ensures RegistryInv(s')
    ensures s' == s.(phase := s'.phase, registry := s'.registry, fw := s'.fw, log := s'.log)
    ensures ok ==> s'.phase == Engaged && s'.fw.addresses == Some(ips)
    ensures !ok ==> s'.phase == s.phase && AllOff(s'.registry) && s'.fw.blocked == []
  {
    if ok {
      SyncKeeps(s.(fw := FwView(Some(ips), []), phase := Engaged), s', true, false);
    } else {
      NothingRegistered(s.fw, s.registry);
      NothingRegistered(s'.fw, s'.registry);
    }
  }

  lemma LeaveKeeps(s: State, s': State, ok: bool)
    requires LeaveStep(s, s', ok) && RegistryInv(s)
    ensures RegistryInv(s')
    ensures ok ==> AllOff(s'.registry)
  {
    if ok {
      NothingRegistered(s'.fw, s'.registry);
    }
  }

  lemma InitializeKeeps(s: State, s': State, ok: bool)
    requires s.phase == Started && Inv(s) && InitializeStep(s, s', ok)
    ensures Inv(s')
  {
    PoolCreate(s.pool, []);
    PoolRoundTrip(s.pool, []);
    NothingRegistered(s'.fw, s'.registry);
  }

  lemma ResetKeeps(s: State, s': State, ok: bool)
    requires Inv(s) && ResetStep(s, s', ok)
    ensures Inv(s')
  {
    if s.phase != Started && s.phase != Zombie {
      if ok {
        PoolTearDown(s.pool, s.instance.value);
        assert s'.pool.live.Keys == {};
        NothingRegistered(s'.fw, s'.registry);
      } else if s.phase == Engaged {
        var s1 := s'.(phase := s.phase, subsystems := s.subsystems);
        if LeaveStep(s, s1.(phase := Ready), true) {
          LeaveKeeps(s, s1.(phase := Ready), true);
        }
      }
    }
  }

  lemma EntriesThere(b: W.Buffer)
    requires W.WellFormed(W.PROCESSES, b)
    ensures |b| >= W.HEADER_SIZE
    ensures forall i: nat :: i < W.NumEntries(b) ==> W.HasEntry(W.PROCESSES, b, i)
  {
  }

  lemma RegisterProcessesKeeps(fold: CaseFolding, b: W.Buffer, s: State, s': State, ok: bool)
    requires Inv(s) && s.phase == Initialized && RegisterProcessesStep(fold, b, s, s', ok)
    ensures Inv(s')
  {
    if ok {
      assert AllOff(s'.registry);
      NothingRegistered(s'.fw, s'.registry);
    }
  }

  lemma RegisterIpAddressesKeeps(ips: IpAddresses, s: State, s': State, ok: bool)
    requires Inv(s) && HasInstance(s) && RegisterIpAddressesStep(ips, s, s', ok)
    ensures Inv(s')
  {
    if s.phase == Ready {
      if Configuration(s) != [] && VpnActive(ips) {
        EngageKeeps(s, ips, if ok then s'.(ips := s.ips) else s', ok);
      }
    } else if !VpnActive(ips) {
      LeaveKeeps(s, if ok then s'.(ips := s.ips) else s', ok);
    } else if ok {
      ReboundKeeps(s.fw.blocked, ActiveTunnel(ips));
    }
  }

  /** Moving filters to new addresses changes no count. */
  lemma ReboundKeeps(list: BlockList, addresses: TunnelAddresses)
    requires WellFormed(list)
    ensures WellFormed(Rebound(list, addresses))
    ensures AllBoundTo(Rebound(list, addresses), addresses)
    ensures forall image :: RefCount(Rebound(list, addresses), image) == RefCount(list, image)
  {
    ReboundWellFormed(list, addresses, |list|);
    forall image
      ensures RefCount(Rebound(list, addresses), image) == RefCount(list, image)
    {
      IndexIs(Rebound(list, addresses), image, IndexOf(list, image));
    }
  }

  lemma {:induction false} ImagesNonEmpty(fold: CaseFolding, b: W.Buffer, n: nat)
    requires W.WellFormed(W.CONFIGURATION, b) && 0 < n <= W.NumEntries(b)
    ensures ImagesOf(fold, b, n) != []
  {
    if n > 1 {
      ImagesNonEmpty(fold, b, n - 1);
    }
  }

  lemma ReplaceConfigurationKeeps(images: ImageSet, s: State, s': State, ok: bool)
    requires Inv(s) && HasInstance(s) && images != [] && ReplaceConfigurationStep(images, s, s', ok)
    ensures Inv(s')
  {
    var id, pool := s.pool.created, s.pool.Create(images);
    PoolCreate(s.pool, images);
    PoolTearDown(pool, id);
    PoolTearDown(pool, s.instance.value);
    PoolRoundTrip(s.pool, images);
    var s1 := s.(pool := pool, instance := Some(id));
    var s2 := s'.(pool := pool, instance := Some(id));
    if s.phase == Engaged {
      SyncKeeps(s1, s2, ok, true);
    } else if VpnActive(s.ips) {
      EngageKeeps(s1, s.ips, s2, ok);
    }
  }

  lemma SetConfigurationKeeps(fold: CaseFolding, b: W.Buffer, s: State, s': State, ok: bool)
    requires Inv(s) && HasInstance(s) && (s.phase == Ready || s.phase == Engaged)
    requires SetConfigurationStep(fold, b, s, s', ok)
    ensures Inv(s')
  {
    PoolRoundTrip(s.pool, []);
    if s' != s && s' != s.(pool := s.pool.Create([]).TearDown(s.pool.created)) {
      ImagesNonEmpty(fold, b, W.NumEntries(b));
      ReplaceConfigurationKeeps(ImagesOf(fold, b, W.NumEntries(b)), s, s', ok);
    }
  }

  lemma ClearConfigurationKeeps(s: State, s': State, ok: bool)
    requires Inv(s) && HasInstance(s) && (s.phase == Ready || s.phase == Engaged)
    requires ClearConfigurationStep(s, s', ok)
    ensures Inv(s')
  {
    assert s'.pool.live.Keys == s.pool.live.Keys;
    assert |s'.pool.live| == |s'.pool.live.Keys| && |s.pool.live| == |s.pool.live.Keys|;
    if s.phase == Engaged && ok {
      LeaveKeeps(s, s'.(pool := s.pool), true);
    }
  }

  lemma ArrivalConserves(r: Registry, p: Pid, parent: Pid, image: ImageName, status: SplitStatus, fw: FwView)
    requires p !in r
    ensures forall other :: Surplus(fw, r[p := FreshEntry(parent, image, status)], other) == Surplus(fw, r, other)
  {
    hide RefCount, Users;
    forall other
      ensures Users(r[p := FreshEntry(parent, image, status)], other) == Users(r, other)
    {
      UsersUpdate(r, p, FreshEntry(parent, image, status), other);
    }
  }

  lemma ArrivalKeeps(p: Pid, parent: Pid, image: ImageName, s: State, s': State, added: bool, announced: bool)
    requires Inv(s) && HasInstance(s) && (s.phase == Ready || s.phase == Engaged)
    requires ArrivalStep(p, parent, image, s, s', added, announced)
    ensures Inv(s')
  {
    hide Committed, Surplus, ArrivalStatus;
    if added {
      var status := StatusOnArrival(s, parent, image);
      ArrivalConserves(s.registry, p, parent, image, status, s.fw);
    }
  }

  /** A departure takes one process and, if the firewall is told, one registration away. */
  lemma DepartureConserves(p: Pid, s: State, s': State, released: bool, image: ImageName)
    requires p in s.registry && Committed(s.fw) && DepartureStep(p, s, s', released)
    requires Surplus(s.fw, s.registry, image) == s.leaked[image]
    ensures Surplus(s'.fw, s'.registry, image) == s'.leaked[image]
  {
    hide WellFormed, IndexOf, UserSet;
    var e := s.registry[p];
    UsersRemoved(s.registry, p, image);
    if e.settings.hasFirewallState && released {
      UnregisteredCount(s.fw.blocked, e.image, image);
    }
  }

  lemma DepartureKeeps(p: Pid, s: State, s': State, released: bool)
    requires Inv(s) && (s.phase == Ready || s.phase == Engaged)
    requires DepartureStep(p, s, s', released)
    ensures Inv(s')
  {
    hide WellFormed, IndexOf, Surplus;
    if p in s.registry {
      var e := s.registry[p];
      if e.settings.hasFirewallState && released {
        UnregisteredWellFormed(s.fw.blocked, e.image, ActiveTunnel(s.ips));
      }
      forall image {
        DepartureConserves(p, s, s', released, image);
      }
    }
  }

  lemma RequestKeeps(fold: CaseFolding, request: Request, s: State, s': State, ok: bool)
    requires Inv(s) && RequestStep(fold, request, s, s', ok)
    ensures Inv(s')
  {
    if Served(s.phase, request) {
      match request {
        case Initialize => InitializeKeeps(s, s', ok);
        case RegisterProcesses(b) => RegisterProcessesKeeps(fold, b, s, s', ok);
        case RegisterIpAddresses(ips) => RegisterIpAddressesKeeps(ips, s, s', ok);
        case SetConfiguration(b) => SetConfigurationKeeps(fold, b, s, s', ok);
        case ClearConfiguration => ClearConfigurationKeeps(s, s', ok);
        case Query =>
        case Reset => ResetKeeps(s, s', ok);
      }
    }
  }

  /** Every step keeps the invariant, whatever processes arrive under whatever parents. */
  lemma StepKeeps(fold: CaseFolding, step: Step, s: State, s': State)
    requires Inv(s) && Next(fold, step, s, s')
    ensures Inv(s')
  {
    match step {
      case Serve(request, ok) => RequestKeeps(fold, request, s, s', ok);
      case Arrive(p, parent, image, added, announced) => ArrivalKeeps(p, parent, image, s, s', added, announced);
      case Depart(p, released) => DepartureKeeps(p, s, s', released);
      case Ignore =>
    }
  }

  // ----- Runs -----

  /** A run of the driver from the moment that it is loaded. */
  ghost predicate Run(fold: CaseFolding, steps: seq<Step>, states: seq<State>) {
    && |states| == |steps| + 1
    && states[0] == INITIAL_STATE
    && forall i :: 0 <= i < |steps| ==>
         Next(fold, steps[i], states[i], states[i + 1])
  }

  /** A run goes on with any step that is possible in its last state. */
  lemma RunSnoc(fold: CaseFolding, steps: seq<Step>, states: seq<State>, step: Step, s: State)
    requires Run(fold, steps, states) && Next(fold, step, states[|steps|], s)
    ensures Run(fold, steps + [step], states + [s])
  {
    hide Next;
    var steps', states' := steps + [step], states + [s];
    forall i | 0 <= i < |steps'|
      ensures Next(fold, steps'[i], states'[i], states'[i + 1])
    {
      if i < |steps| {
        assert Next(fold, steps[i], states[i], states[i + 1]);
      }
    }
  }

  lemma InitialInv()
    ensures Inv(INITIAL_STATE)
  {
    NothingRegistered(FW_OFF, map[]);
  }

  /** The invariant holds in every state of every run. */
  lemma {:induction false} RunInvariant(fold: CaseFolding, steps: seq<Step>, states: seq<State>, n: nat)
    requires Run(fold, steps, states) && n <= |steps|
    ensures Inv(states[n])
  {
    if n == 0 {
      InitialInv();
    } else {
      RunInvariant(fold, steps, states, n - 1);
      StepKeeps(fold, steps[n - 1], states[n - 1], states[n]);
    }
  }

  // ----- Runs without cycles -----

  /** A step that cannot make a process its own ancestor: no arrival that closes a cycle of parent links,
      and no list of processes that comes with one. */
  ghost predicate Admissible(fold: CaseFolding, step: Step, s: State) {
    match step
    case Serve(RegisterProcesses(b), _) =>
      forall r :: W.WellFormed(W.PROCESSES, b) && Loaded(fold, b, W.NumEntries(b), r) ==> Acyclic(r)
    case Arrive(p, parent, _, added, _) => !(added && ClosesCycle(s.registry, p, parent))
    case _ => true
  }

  lemma EmptyAcyclic(r: Registry)
    requires r == map[]
    ensures Acyclic(r)
  {
    assert Ranks(map[], r);
  }

  lemma ReplaceSameParents(images: ImageSet, s: State, s': State, ok: bool)
    requires HasInstance(s) && ReplaceConfigurationStep(images, s, s', ok)
    ensures SameParents(s.registry, s'.registry)
  {
    hide Announced, Complains, Surplus, Committed, DetermineSplittingMode;
  }

  lemma RequestSameParents(fold: CaseFolding, request: Request, s: State, s': State, ok: bool)
    requires RequestStep(fold, request, s, s', ok) && !request.RegisterProcesses?
    ensures s'.registry == map[] || SameParents(s.registry, s'.registry)
  {
    hide Announced, Complains, Surplus, Committed, W.WellFormed, ImagesOf, DetermineSplittingMode;
    hide ReplaceConfigurationStep;
    if request.SetConfiguration? && s'.registry != s.registry {
      ReplacedParents(fold, request.buffer, s, s', ok);
    }
  }

  lemma ReplacedParents(fold: CaseFolding, b: W.Buffer, s: State, s': State, ok: bool)
    requires HasInstance(s) && SetConfigurationStep(fold, b, s, s', ok) && s'.registry != s.registry
    ensures SameParents(s.registry, s'.registry)
  {
    hide ReplaceConfigurationStep, ImagesOf;
    ReplaceSameParents(ImagesOf(fold, b, W.NumEntries(b)), s, s', ok);
  }

  lemma LoadedAcyclic(fold: CaseFolding, b: W.Buffer, s: State, s': State, ok: bool)
    requires RequestStep(fold, RegisterProcesses(b), s, s', ok) && Acyclic(s.registry)
    requires Admissible(fold, Serve(RegisterProcesses(b), ok), s)
    ensures Acyclic(s'.registry)
  {
    if s'.registry == map[] {
      EmptyAcyclic(s'.registry);
    }
  }

  lemma RequestAcyclic(fold: CaseFolding, request: Request, s: State, s': State, ok: bool)
    requires RequestStep(fold, request, s, s', ok) && Acyclic(s.registry)
    requires Admissible(fold, Serve(request, ok), s)
    ensures Acyclic(s'.registry)
  {
    hide RequestStep, Acyclic, W.WellFormed, Loaded;
    if request.RegisterProcesses? {
      LoadedAcyclic(fold, request.buffer, s, s', ok);
    } else {
      RequestSameParents(fold, request, s, s', ok);
      if s'.registry == map[] {
        EmptyAcyclic(s'.registry);
      } else {
        AcyclicSameParents(s.registry, s'.registry);
      }
    }
  }

  lemma ArrivalAcyclic(p: Pid, parent: Pid, image: ImageName, s: State, s': State, added: bool, announced: bool)
    requires HasInstance(s) && ArrivalStep(p, parent, image, s, s', added, announced) && Acyclic(s.registry)
    ensures Acyclic(s'.registry) <==> !(added && ClosesCycle(s.registry, p, parent))
  {
    hide Acyclic, ClosesCycle, ArrivalStatus;
    if added {
      AddedAcyclic(s.registry, p, s'.registry[p]);
    }
  }

  /** A step keeps the parent links free of cycles if it is admissible, and an arrival only then. */
  lemma AcyclicStep(fold: CaseFolding, step: Step, s: State, s': State)
    requires Next(fold, step, s, s') && Acyclic(s.registry)
    ensures Admissible(fold, step, s) ==> Acyclic(s'.registry)
    ensures step.Arrive? && Acyclic(s'.registry) ==> Admissible(fold, step, s)
  {
    hide RequestStep, ArrivalStep, Acyclic, ClosesCycle, W.WellFormed, Loaded, IndexOf;
    match step {
      case Serve(request, ok) =>
        if Admissible(fold, step, s) {
          RequestAcyclic(fold, request, s, s', ok);
        }
      case Arrive(p, parent, image, added, announced) =>
        ArrivalAcyclic(p, parent, image, s, s', added, announced);
      case Depart(p, released) =>
        if p in s.registry {
          RemovedAcyclic(s.registry, p);
        }
      case Ignore =>
    }
  }

  /** In a run of admissible steps, no process is ever its own ancestor, and every ancestry walk ends. */
  lemma {:induction false} AcyclicRun(fold: CaseFolding, steps: seq<Step>, states: seq<State>, n: nat)
    requires Run(fold, steps, states) && n <= |steps|
    requires forall i :: 0 <= i < n ==> Admissible(fold, steps[i], states[i])
    ensures Acyclic(states[n].registry)
    ensures forall images :: WalksEnd(states[n].registry, images)
  {
    hide WalksEnd;
    if n == 0 {
      EmptyAcyclic(states[0].registry);
    } else {
      AcyclicRun(fold, steps, states, n - 1);
      RunInvariant(fold, steps, states, n - 1);
      AcyclicStep(fold, steps[n - 1], states[n - 1], states[n]);
    }
    forall images {
      AcyclicWalksEnd(states[n].registry, images);
    }
  }

  /** The request does not set off an ancestry walk without end. */
  ghost predicate Completes(fold: CaseFolding, request: Request, s: State) {
    match request
    case RegisterIpAddresses(ips) =>
      HasInstance(s) && s.phase == Ready && Configuration(s) != [] && VpnActive(ips)
      ==> WalksEnd(s.registry, Configuration(s))
    case SetConfiguration(b) =>
      W.WellFormed(W.CONFIGURATION, b) && (s.phase == Engaged || VpnActive(s.ips))
      ==> WalksEnd(s.registry, ImagesOf(fold, b, W.NumEntries(b)))
    case _ => true
  }

  lemma AcyclicCompletes(fold: CaseFolding, request: Request, s: State)
    requires Acyclic(s.registry)
    ensures Completes(fold, request, s)
  {
    hide Acyclic, WalksEnd, W.WellFormed, ImagesOf;
    forall images {
      AcyclicWalksEnd(s.registry, images);
    }
  }
}
