/** What the steps of a run tell about its last state: what has been asked for, and what each event means. */
module DriverHistory {
  import opened SplitTypes
  import opened Ancestry
  import opened Propagation
  import opened EventLog
  import opened AppFilters
  import opened Firewall
  import opened DriverSteps
  import opened DriverRuns
  import opened DriverTheorems
  import opened DriverInputs
  import W = WireFormat

  // ----- Addresses -----

  /** The addresses that a step leaves behind, given those from before it. */
  function AddressesAfter(step: Step, before: IpAddresses): IpAddresses {
    match step
    case Serve(RegisterIpAddresses(ips), true) => ips
    case Serve(Reset, true) => NO_ADDRESSES
    case _ => before
  }

  /** The addresses of the last registration that has succeeded, unless a reset has come after it. */
  function RegisteredAddresses(steps: seq<Step>): IpAddresses {
    if steps == [] then NO_ADDRESSES
    else AddressesAfter(steps[|steps| - 1], RegisteredAddresses(steps[..|steps| - 1]))
  }

  lemma ReplaceSameAddresses(images: ImageSet, s: State, s': State, ok: bool)
    requires HasInstance(s) && ReplaceConfigurationStep(images, s, s', ok)
    ensures s'.ips == s.ips
  {
    hide Announced, Complains, Surplus, Committed, DetermineSplittingMode, Synced, SameButTargets;
  }

  lemma SetConfigurationSameAddresses(fold: CaseFolding, b: W.Buffer, s: State, s': State, ok: bool)
    requires HasInstance(s) && SetConfigurationStep(fold, b, s, s', ok)
    ensures s'.ips == s.ips
  {
    hide ReplaceConfigurationStep, ImagesOf;
    if s'.ips != s.ips {
      ReplaceSameAddresses(ImagesOf(fold, b, W.NumEntries(b)), s, s', ok);
    }
  }

  lemma AddressesStep(fold: CaseFolding, step: Step, s: State, s': State)
    requires Inv(s) && Next(fold, step, s, s')
    ensures s'.ips == AddressesAfter(step, s.ips)
  {
    hide Announced, Complains, Committed, Conserved, StateOnlyIfSplitting, PoolAccounted, SyncStep, Rebound;
    hide SetConfigurationStep, Loaded, W.WellFormed, DetermineSplittingMode, ArrivalStatus, Cleared, IndexOf;
    hide RegisterIpAddressesStep, Removed, Unregistered;
    if step.Serve? && step.request.SetConfiguration? && Served(s.phase, step.request) {
      SetConfigurationSameAddresses(fold, step.request.buffer, s, s', step.ok);
    } else if step.Serve? && step.request.RegisterIpAddresses? && Served(s.phase, step.request) {
      RegisterIpAddressesStores(step.request.ips, s, s', step.ok);
    }
  }

  lemma RegisterIpAddressesStores(ips: IpAddresses, s: State, s': State, ok: bool)
    requires HasInstance(s) && RegisterIpAddressesStep(ips, s, s', ok)
    ensures s'.ips == if ok then ips else s.ips
    ensures s'.pool == s.pool && s'.instance == s.instance
  {
    hide Announced, Complains, Rebound, DetermineSplittingMode, Synced, Surplus, Committed, SameButTargets;
  }

  /** The driver always uses the addresses that were registered last. */
  lemma {:induction false} AddressesAreRegistered(fold: CaseFolding, steps: seq<Step>, states: seq<State>, n: nat)
    requires Run(fold, steps, states) && n <= |steps|
    ensures states[n].ips == RegisteredAddresses(steps[..n])
  {
    hide Next, Inv;
    if n > 0 {
      AddressesAreRegistered(fold, steps, states, n - 1);
      RunInvariant(fold, steps, states, n - 1);
      AddressesStep(fold, steps[n - 1], states[n - 1], states[n]);
      assert steps[..n][..n - 1] == steps[..n - 1];
    }
  }

  // ----- Configurations -----

  /** The configuration that a step leaves behind, given the one from before it. */
  ghost function ConfigurationAfter(fold: CaseFolding, step: Step, before: ImageSet): ImageSet {
    match step
    case Serve(SetConfiguration(b), true) =>
      if W.WellFormed(W.CONFIGURATION, b) then ImagesOf(fold, b, W.NumEntries(b)) else before
    case Serve(ClearConfiguration, true) => []
    case Serve(Initialize, true) => []
    case Serve(Reset, true) => []
    case _ => before
  }

  /** The images in the last configuration that was set with success, unless it has been cleared since. */
  ghost function RequestedConfiguration(fold: CaseFolding, steps: seq<Step>): ImageSet {
    if steps == [] then []
    else ConfigurationAfter(fold, steps[|steps| - 1], RequestedConfiguration(fold, steps[..|steps| - 1]))
  }

  ghost function ConfigurationOrNone(s: State): ImageSet {
    if HasInstance(s) then Configuration(s) else []
  }

  lemma ReplacedConfiguration(images: ImageSet, s: State, s': State, ok: bool)
    requires OwnsInstance(s) && PoolAccounted(s.pool) && ReplaceConfigurationStep(images, s, s', ok)
    ensures HasInstance(s') && Configuration(s') == if ok then images else Configuration(s)
  {
    hide EngageStep, SyncStep;
    assert s.instance.value != s.pool.created;
  }

  lemma SetConfigurationStores(fold: CaseFolding, b: W.Buffer, s: State, s': State, ok: bool)
    requires OwnsInstance(s) && PoolAccounted(s.pool) && SetConfigurationStep(fold, b, s, s', ok)
    ensures HasInstance(s')
    ensures ok ==> W.WellFormed(W.CONFIGURATION, b) && Configuration(s') == ImagesOf(fold, b, W.NumEntries(b))
    ensures !ok ==> Configuration(s') == Configuration(s)
  {
    hide ReplaceConfigurationStep, ImagesOf;
    if ok || (s' != s && s' != s.(pool := s.pool.Create([]).TearDown(s.pool.created))) {
      ReplacedConfiguration(ImagesOf(fold, b, W.NumEntries(b)), s, s', ok);
    } else {
      assert s.instance.value != s.pool.created;
    }
  }

  lemma RequestConfiguration(fold: CaseFolding, request: Request, s: State, s': State, ok: bool)
    requires Inv(s) && RequestStep(fold, request, s, s', ok)
    ensures ConfigurationOrNone(s') == ConfigurationAfter(fold, Serve(request, ok), ConfigurationOrNone(s))
  {
    hide Announced, Complains, Committed, Conserved, StateOnlyIfSplitting, SyncStep, Rebound, ImagesOf;
    hide SetConfigurationStep, DetermineSplittingMode, Loaded, W.WellFormed;
    hide RegisterIpAddressesStep, Cleared;
    if request.SetConfiguration? && Served(s.phase, request) {
      SetConfigurationStores(fold, request.buffer, s, s', ok);
    } else if request.RegisterIpAddresses? && Served(s.phase, request) {
      RegisterIpAddressesStores(request.ips, s, s', ok);
    }
  }

  /** The driver always uses the configuration that was asked for last. */
  lemma {:induction false} ConfigurationIsRequested(fold: CaseFolding, steps: seq<Step>, states: seq<State>, n: nat)
    requires Run(fold, steps, states) && n <= |steps|
    ensures ConfigurationOrNone(states[n]) == RequestedConfiguration(fold, steps[..n])
    ensures HasInstance(states[n]) ==> Configuration(states[n]) == RequestedConfiguration(fold, steps[..n])
  {
    hide RequestStep, Inv, ConfigurationAfter, ArrivalStep, DepartureStep;
    if n > 0 {
      ConfigurationIsRequested(fold, steps, states, n - 1);
      RunInvariant(fold, steps, states, n - 1);
      ConfigurationStep(fold, steps[n - 1], states[n - 1], states[n]);
      assert steps[..n][..n - 1] == steps[..n - 1];
    }
  }

  lemma ConfigurationStep(fold: CaseFolding, step: Step, s: State, s': State)
    requires Inv(s) && Next(fold, step, s, s')
    ensures ConfigurationOrNone(s') == ConfigurationAfter(fold, step, ConfigurationOrNone(s))
  {
    hide RequestStep, Inv, Removed, Unregistered, IndexOf, Complains, ArrivalStatus;
    if step.Serve? {
      RequestConfiguration(fold, step.request, s, s', step.ok);
    }
  }

  /** While requests are served, the driver is engaged exactly if the addresses that were registered last
      include a tunnel and the configuration that was asked for last is not empty. */
  lemma EngagedAsRequested(fold: CaseFolding, steps: seq<Step>, states: seq<State>, n: nat)
    requires Run(fold, steps, states) && n <= |steps| && states[n].phase in {Ready, Engaged}
    ensures states[n].phase == Engaged
            <==> VpnActive(RegisteredAddresses(steps[..n])) && RequestedConfiguration(fold, steps[..n]) != []
  {
    hide Inv, Next, RegisteredAddresses, RequestedConfiguration, VpnActive;
    RunInvariant(fold, steps, states, n);
    EngagedExactly(states[n]);
    AddressesAreRegistered(fold, steps, states, n);
    ConfigurationIsRequested(fold, steps, states, n);
  }

  // ----- Processes -----

  datatype Process = Process(parent: Pid, image: ImageName)

  function Processes(r: Registry): map<Pid, Process> {
    map p | p in r :: Process(r[p].parent, r[p].image)
  }

  /** The first `n` processes of a list. */
  function ListedProcesses(fold: CaseFolding, b: W.Buffer, n: nat): map<Pid, Process>
    requires W.WellFormed(W.PROCESSES, b) && n <= W.NumEntries(b)
  {
    if n == 0 then map[]
    else
      var image := FoldName(fold, W.StringOf(W.PROCESSES, b, n - 1));
      ListedProcesses(fold, b, n - 1)[PidAt(b, n - 1) := Process(ParentAt(b, n - 1), image)]
  }

  /** The processes that are left when one has gone. Its children have lost their parent. */
  function WithoutProcess(before: map<Pid, Process>, p: Pid): map<Pid, Process> {
    map q | q in before && q != p :: if before[q].parent == p then before[q].(parent := NO_PROCESS) else before[q]
  }

  ghost function ProcessesAfter(fold: CaseFolding, step: Step, before: map<Pid, Process>): map<Pid, Process> {
    match step
    case Serve(RegisterProcesses(b), true) =>
      if W.WellFormed(W.PROCESSES, b) then ListedProcesses(fold, b, W.NumEntries(b)) else before
    case Serve(Reset, true) => map[]
    case Arrive(p, parent, image, true, _) => before[p := Process(parent, image)]
    case Depart(p, _) => if p in before then WithoutProcess(before, p) else before
    case _ => before
  }

  /** The processes that were listed, and what has come and gone since. */
  ghost function KnownProcesses(fold: CaseFolding, steps: seq<Step>): map<Pid, Process> {
    if steps == [] then map[]
    else ProcessesAfter(fold, steps[|steps| - 1], KnownProcesses(fold, steps[..|steps| - 1]))
  }

  /** Settings that change are those that were the target, and the ones from before are remembered. What is
      new has no past, no firewall state and no target yet. */
  ghost predicate Tracked(r: Registry, r': Registry) {
    && (forall p :: p in r && p in r' ==>
          if r'[p].previous == r[p].settings then r'[p].settings == r[p].settings || r'[p].settings == r'[p].target
          else r'[p].settings == r[p].settings && r'[p].previous == r[p].previous)
    && (forall p :: p in r' && p !in r ==>
          r'[p].previous == SETTINGS_OFF && r'[p].target == SETTINGS_OFF && !r'[p].settings.hasFirewallState)
  }

  lemma EngageSameProcesses(s: State, ips: IpAddresses, s': State, ok: bool)
    requires HasInstance(s) && EngageStep(s, ips, s', ok)
    ensures Processes(s'.registry) == Processes(s.registry)
    ensures Tracked(s.registry, s'.registry)
  {
    hide Announced, Complains, Surplus, Committed, DetermineSplittingMode, TargetSettings;
  }

  lemma LeaveSameProcesses(s: State, s': State, ok: bool)
    requires LeaveStep(s, s', ok)
    ensures Processes(s'.registry) == Processes(s.registry)
    ensures Tracked(s.registry, s'.registry)
  {
    hide Announced, Complains;
  }

  lemma RegisterIpAddressesSameProcesses(ips: IpAddresses, s: State, s': State, ok: bool)
    requires HasInstance(s) && RegisterIpAddressesStep(ips, s, s', ok)
    ensures Processes(s'.registry) == Processes(s.registry)
    ensures Tracked(s.registry, s'.registry)
  {
    hide Announced, Complains, Rebound, DetermineSplittingMode, EngageStep, LeaveStep;
    if s.phase == Ready && Configuration(s) != [] && VpnActive(ips) {
      EngageSameProcesses(s, ips, if ok then s'.(ips := s.ips) else s', ok);
    } else if s.phase == Engaged && !VpnActive(ips) {
      LeaveSameProcesses(s, if ok then s'.(ips := s.ips) else s', ok);
    }
  }

  lemma ReplaceSameProcesses(images: ImageSet, s: State, s': State, ok: bool)
    requires HasInstance(s) && ReplaceConfigurationStep(images, s, s', ok)
    ensures Processes(s'.registry) == Processes(s.registry)
    ensures Tracked(s.registry, s'.registry)
  {
    hide Announced, Complains, Surplus, Committed, EngageStep, TargetSettings;
    var id, pool := s.pool.created, s.pool.Create(images);
    var s1, s2 := s.(pool := pool, instance := Some(id)), s'.(pool := pool, instance := Some(id));
    if s.phase == Ready && VpnActive(s.ips) {
      EngageSameProcesses(s1, s.ips, s2, ok);
    }
  }

  lemma SetConfigurationSameProcesses(fold: CaseFolding, b: W.Buffer, s: State, s': State, ok: bool)
    requires HasInstance(s) && SetConfigurationStep(fold, b, s, s', ok)
    ensures Processes(s'.registry) == Processes(s.registry)
    ensures Tracked(s.registry, s'.registry)
  {
    hide ReplaceConfigurationStep, ImagesOf;
    if s'.registry != s.registry {
      ReplaceSameProcesses(ImagesOf(fold, b, W.NumEntries(b)), s, s', ok);
    }
  }

  lemma LoadedProcesses(fold: CaseFolding, b: W.Buffer, n: nat, r: Registry)
    requires W.WellFormed(W.PROCESSES, b) && n <= W.NumEntries(b) && Loaded(fold, b, n, r)
    ensures Processes(r) == ListedProcesses(fold, b, n)
  {
    hide W.Word, W.StringOf, W.EntryAt, W.StringInside, W.HasEntry, W.WellFormed, FoldName;
    EntriesThere(b);
    forall p | p in r
      ensures p in ListedProcesses(fold, b, n) && ListedProcesses(fold, b, n)[p] == Process(r[p].parent, r[p].image)
    {
      var i :| 0 <= i < n && PidAt(b, i) == p;
      ListedAt(fold, b, n, i);
    }
    ListedOnly(fold, b, n);
  }

  lemma {:induction false} ListedAt(fold: CaseFolding, b: W.Buffer, n: nat, i: nat)
    requires W.WellFormed(W.PROCESSES, b) && i < n <= W.NumEntries(b)
    requires forall j, k :: 0 <= j < k < n ==> PidAt(b, j) != PidAt(b, k)
    ensures PidAt(b, i) in ListedProcesses(fold, b, n)
    ensures var e := DiscoveredEntry(fold, b, i);
            ListedProcesses(fold, b, n)[PidAt(b, i)] == Process(e.parent, e.image)
  {
    hide W.Word, W.StringOf, W.EntryAt, W.StringInside, W.HasEntry, W.WellFormed, FoldName;
    EntriesThere(b);
    if i < n - 1 {
      ListedAt(fold, b, n - 1, i);
    }
  }

  lemma {:induction false} ListedOnly(fold: CaseFolding, b: W.Buffer, n: nat)
    requires W.WellFormed(W.PROCESSES, b) && n <= W.NumEntries(b)
    ensures forall p :: p in ListedProcesses(fold, b, n) ==> exists i :: 0 <= i < n && PidAt(b, i) == p
  {
    hide W.Word, W.StringOf, W.EntryAt, W.StringInside, W.HasEntry, W.WellFormed, FoldName;
    EntriesThere(b);
    if n > 0 {
      ListedOnly(fold, b, n - 1);
      forall p | p in ListedProcesses(fold, b, n)
        ensures exists i :: 0 <= i < n && PidAt(b, i) == p
      {
        if p != PidAt(b, n - 1) {
          assert p in ListedProcesses(fold, b, n - 1);
          var i :| 0 <= i < n - 1 && PidAt(b, i) == p;
          assert 0 <= i < n;
        } else {
          assert 0 <= n - 1 < n;
        }
      }
    }
  }

  lemma RegisteredProcesses(fold: CaseFolding, b: W.Buffer, s: State, s': State)
    requires RegisterProcessesStep(fold, b, s, s', true)
    ensures W.WellFormed(W.PROCESSES, b)
    ensures Processes(s'.registry) == ListedProcesses(fold, b, W.NumEntries(b))
    ensures s.registry == map[] ==> Tracked(s.registry, s'.registry)
  {
    LoadedProcesses(fold, b, W.NumEntries(b), s'.registry);
  }

  lemma ClearConfigurationSameProcesses(s: State, s': State, ok: bool)
    requires HasInstance(s) && ClearConfigurationStep(s, s', ok)
    ensures Processes(s'.registry) == Processes(s.registry)
    ensures Tracked(s.registry, s'.registry)
  {
    hide LeaveStep;
    if s.phase == Engaged {
      LeaveSameProcesses(s, if ok then s'.(pool := s.pool) else s', ok);
    }
  }

  lemma ResetProcesses(s: State, s': State, ok: bool)
    requires Inv(s) && ResetStep(s, s', ok)
    ensures Processes(s'.registry) == if ok then map[] else Processes(s.registry)
    ensures Tracked(s.registry, s'.registry)
  {
    hide LeaveStep, PoolAccounted, Committed, StateOnlyIfSplitting, Conserved;
    if s.phase == Engaged && !ok {
      var s1 := s'.(phase := s.phase, subsystems := s.subsystems);
      if LeaveStep(s, s1, false) {
        LeaveSameProcesses(s, s1, false);
      } else {
        LeaveSameProcesses(s, s1.(phase := Ready), true);
      }
    }
  }

  lemma RequestProcesses(fold: CaseFolding, request: Request, s: State, s': State, ok: bool)
    requires Inv(s) && RequestStep(fold, request, s, s', ok)
    ensures Processes(s'.registry) == ProcessesAfter(fold, Serve(request, ok), Processes(s.registry))
    ensures Tracked(s.registry, s'.registry)
  {
    hide Announced, Complains, Committed, Conserved, StateOnlyIfSplitting, PoolAccounted, RegisterIpAddressesStep;
    hide SetConfigurationStep, W.WellFormed, Loaded, Rebound, SyncStep, ClearConfigurationStep, ResetStep;
    if Served(s.phase, request) {
      match request {
        case RegisterIpAddresses(ips) => RegisterIpAddressesSameProcesses(ips, s, s', ok);
        case SetConfiguration(b) => SetConfigurationSameProcesses(fold, b, s, s', ok);
        case ClearConfiguration => ClearConfigurationSameProcesses(s, s', ok);
        case Reset => ResetProcesses(s, s', ok);
        case RegisterProcesses(b) =>
          if ok {
            RegisteredProcesses(fold, b, s, s');
          }
        case _ =>
      }
    }
  }

  lemma AddedProcesses(r: Registry, p: Pid, parent: Pid, image: ImageName, status: SplitStatus)
    ensures Processes(r[p := FreshEntry(parent, image, status)]) == Processes(r)[p := Process(parent, image)]
  {
  }

  lemma RemovedProcesses(r: Registry, p: Pid)
    ensures p in Processes(r) <==> p in r
    ensures Processes(Removed(r, p)) == WithoutProcess(Processes(r), p)
    ensures Tracked(r, Removed(r, p))
  {
  }

  lemma ProcessesStep(fold: CaseFolding, step: Step, s: State, s': State)
    requires Inv(s) && Next(fold, step, s, s')
    ensures Processes(s'.registry) == ProcessesAfter(fold, step, Processes(s.registry))
    ensures Tracked(s.registry, s'.registry)
  {
    hide RequestStep, Inv, Unregistered, IndexOf, Complains, ArrivalStatus, ListedProcesses, Processes, Removed;
    hide WithoutProcess;
    match step {
      case Serve(request, ok) => RequestProcesses(fold, request, s, s', ok);
      case Arrive(p, parent, image, _, _) =>
        AddedProcesses(s.registry, p, parent, image, StatusOnArrival(s, parent, image));
      case Depart(p, _) => RemovedProcesses(s.registry, p);
      case Ignore =>
    }
  }

  /** The registry holds exactly the processes that were listed or have arrived, and have not departed. */
  lemma {:induction false} ProcessesAreKnown(fold: CaseFolding, steps: seq<Step>, states: seq<State>, n: nat)
    requires Run(fold, steps, states) && n <= |steps|
    ensures Processes(states[n].registry) == KnownProcesses(fold, steps[..n])
  {
    hide RequestStep, Inv, ProcessesAfter, ArrivalStep, DepartureStep;
    if n > 0 {
      ProcessesAreKnown(fold, steps, states, n - 1);
      RunInvariant(fold, steps, states, n - 1);
      ProcessesStep(fold, steps[n - 1], states[n - 1], states[n]);
      assert steps[..n][..n - 1] == steps[..n - 1];
    }
  }

  // ----- Names -----

  /** A name as the driver stores it: in lower case, or empty. */
  ghost predicate LowerCase(fold: CaseFolding, name: ImageName) {
    name == [] || exists raw :: raw != [] && fold.lower(raw) == name
  }

  ghost predicate AllLowerCase(fold: CaseFolding, processes: map<Pid, Process>) {
    forall p :: p in processes ==> LowerCase(fold, processes[p].image)
  }

  lemma FoldedName(fold: CaseFolding, name: ImageName)
    ensures LowerCase(fold, FoldName(fold, name))
  {
  }

  lemma {:induction false} ListedLowerCase(fold: CaseFolding, b: W.Buffer, n: nat)
    requires W.WellFormed(W.PROCESSES, b) && n <= W.NumEntries(b)
    ensures AllLowerCase(fold, ListedProcesses(fold, b, n))
  {
    hide W.Word, W.StringOf, W.EntryAt, W.StringInside, FoldName, LowerCase;
    if n > 0 {
      ListedLowerCase(fold, b, n - 1);
      FoldedName(fold, W.StringOf(W.PROCESSES, b, n - 1));
    }
  }

  lemma LowerCaseStep(fold: CaseFolding, input: Input, step: Step, s: State, s': State)
    requires Inv(s) && StepFor(fold, input, s, step) && Next(fold, step, s, s')
    requires AllLowerCase(fold, Processes(s.registry))
    ensures AllLowerCase(fold, Processes(s'.registry))
  {
    hide Next, Inv, LowerCase, FoldName, Processes, ListedProcesses, W.StringInside, W.EntryAt, W.Decode;
    ProcessesStep(fold, step, s, s');
    match step {
      case Serve(request, ok) =>
        if request.RegisterProcesses? && W.WellFormed(W.PROCESSES, request.buffer) {
          ListedLowerCase(fold, request.buffer, W.NumEntries(request.buffer));
        }
      case Arrive(_, _, _, _, _) => FoldedName(fold, input.name);
      case _ =>
    }
  }

  /** However processes are spelled when they are listed or arrive, they are registered in lower case. */
  lemma {:induction false} LowerCaseRun(fold: CaseFolding, inputs: seq<Input>, steps: seq<Step>, states: seq<State>,
                                        n: nat)
    requires Run(fold, steps, states) && Follows(fold, inputs, steps, states) && n <= |steps|
    ensures forall p :: p in states[n].registry ==> LowerCase(fold, states[n].registry[p].image)
  {
    hide Next, Inv, LowerCase, StepFor;
    if n > 0 {
      LowerCaseRun(fold, inputs, steps, states, n - 1);
      RunInvariant(fold, steps, states, n - 1);
      LowerCaseStep(fold, inputs[n - 1], steps[n - 1], states[n - 1], states[n]);
    }
    var r := states[n].registry;
    assert forall p :: p in r ==> Processes(r)[p].image == r[p].image;
  }

  // ----- What an event means -----

  /** A start or stop because of the configuration: a process that was there before and after, and has
      begun or ceased to be split. */
  predicate ChangeExplained(p: Pid, reason: Reason, image: ImageName, starts: bool, s: State, s': State) {
    && reason == ByConfig
    && p in s.registry && s.registry[p].image == image && SplittingEnabled(s.registry[p].settings.split) == !starts
    && p in s'.registry && s'.registry[p].image == image && SplittingEnabled(s'.registry[p].settings.split) == starts
  }

  /** The process is registered already. */
  predicate Known(s: State, p: Pid, parent: Pid, image: ImageName) {
    p in s.registry && s.registry[p].parent == parent && s.registry[p].image == image
  }

  /** Every event comes from the step that it tells of. */
  predicate Explained(e: Event, step: Step, s: State, s': State) {
    match step
    case Serve(_, _) =>
      (match e
       case StartSplitting(p, reason, image) => ChangeExplained(p, reason, image, true, s, s')
       case StopSplitting(p, reason, image) => ChangeExplained(p, reason, image, false, s, s')
       case ErrorMessage => true
       case _ => false)
    case Arrive(p, parent, image, added, _) =>
      (match e
       case StartSplitting(pid, reason, name) =>
         && pid == p && name == image && added && HasInstance(s)
         && p !in s.registry && p in s'.registry && s'.registry[p].settings.split != Off
         && reason == Arriving(exists i :: 0 <= i < |Configuration(s)| && Configuration(s)[i].name == image)
       case StartSplittingError(pid, name) => pid == p && name == image && !added && !Known(s, p, parent, image)
       case ErrorMessage => !added && !Known(s, p, parent, image)
       case _ => false)
    case Depart(p, released) =>
      && p in s.registry && p !in s'.registry
      && var gone := s.registry[p];
         (match e
          case StopSplitting(pid, reason, name) =>
            && pid == p && name == gone.image && reason == Departing
            && SplittingEnabled(gone.settings.split) && (gone.settings.hasFirewallState ==> released)
          case StopSplittingError(pid, name) =>
            pid == p && name == gone.image && gone.settings.hasFirewallState && !released
          case ErrorMessage => gone.settings.hasFirewallState && !released
          case _ => false)
    case Ignore => false
  }

  /** The log has grown by events that come from this step. */
  ghost predicate Reported(step: Step, s: State, s': State) {
    && s.log <= s'.log
    && forall i :: |s.log| <= i < |s'.log| ==> Explained(s'.log[i], step, s, s')
  }

  /** Every process that begins or ceases to be split is announced. */
  ghost predicate ChangesReported(s: State, s': State) {
    s.log <= s'.log
    && forall p :: p in s.registry && p in s'.registry ==>
      var a := AnnouncementOf(s.registry, s'.registry, p);
      a.Some? ==> a.value in s'.log[|s.log|..]
  }

  lemma AnnouncementExplained(request: Request, ok: bool, s: State, s': State, p: Pid)
    requires p in s.registry && p in s'.registry && s.registry[p].image == s'.registry[p].image
    requires AnnouncementOf(s.registry, s'.registry, p).Some?
    ensures Explained(AnnouncementOf(s.registry, s'.registry, p).value, Serve(request, ok), s, s')
  {
  }

  lemma ComplaintsExplained(request: Request, ok: bool, s: State, s': State, from: nat, most: nat)
    requires from <= |s'.log| && Complains(s.log, s'.log[..from], most)
    ensures forall i :: |s.log| <= i < from ==> Explained(s'.log[i], Serve(request, ok), s, s')
  {
    assert forall i :: |s.log| <= i < from ==> s'.log[..from][i] == s'.log[i];
  }

  lemma AnnouncementsExplained(request: Request, ok: bool, s: State, s': State, from: nat)
    requires from <= |s'.log| && s.registry.Keys == s'.registry.Keys
    requires Announces(s'.log[from..], s.registry, s'.registry, s.registry.Keys)
    requires Processes(s.registry) == Processes(s'.registry)
    ensures forall i :: from <= i < |s'.log| ==> Explained(s'.log[i], Serve(request, ok), s, s')
  {
    hide Explained, AnnouncementOf;
    var events := s'.log[from..];
    forall i | from <= i < |s'.log|
      ensures Explained(s'.log[i], Serve(request, ok), s, s')
    {
      assert s'.log[i] == events[i - from];
      var p := Subject(events[i - from]);
      assert Processes(s.registry)[p] == Processes(s'.registry)[p];
      AnnouncementExplained(request, ok, s, s', p);
    }
  }

  lemma AnnouncedReported(request: Request, ok: bool, s: State, s': State, most: nat)
    requires Announced(s, s', most) && Processes(s.registry) == Processes(s'.registry)
    ensures Reported(Serve(request, ok), s, s') && ChangesReported(s, s')
  {
    hide Explained, AnnouncementOf, Processes;
    var from: nat :| AnnouncedFrom(s.log, s'.log, s.registry, s'.registry, most, from);
    assert s.log <= s'.log[..from] <= s'.log;
    ComplaintsExplained(request, ok, s, s', from, most);
    AnnouncementsExplained(request, ok, s, s', from);
    assert s'.log[|s.log|..][from - |s.log|..] == s'.log[from..];
  }

  lemma ComplainsReported(request: Request, ok: bool, s: State, s': State, most: nat)
    requires Complains(s.log, s'.log, most) && SameButTargets(s.registry, s'.registry)
    ensures Reported(Serve(request, ok), s, s') && ChangesReported(s, s')
  {
  }

  lemma NothingReported(step: Step, s: State, s': State)
    requires s'.log == s.log
    requires forall p :: p in s.registry && p in s'.registry ==> s'.registry[p].settings == s.registry[p].settings
    ensures Reported(step, s, s') && ChangesReported(s, s')
  {
  }

  /** Reports are about logs and registries only. */
  lemma ReportedSame(request: Request, ok: bool, s: State, s': State, s1: State, s2: State)
    requires Reported(Serve(request, ok), s1, s2) && ChangesReported(s1, s2)
    requires s1.log == s.log && s1.registry == s.registry && s2.log == s'.log && s2.registry == s'.registry
    ensures Reported(Serve(request, ok), s, s') && ChangesReported(s, s')
  {
    forall i | |s.log| <= i < |s'.log|
      ensures Explained(s'.log[i], Serve(request, ok), s, s')
    {
      assert Explained(s2.log[i], Serve(request, ok), s1, s2);
    }
  }

  lemma SyncReported(request: Request, ok: bool, s: State, s': State, force: bool)
    requires HasInstance(s) && SyncStep(s, s', ok, force)
    ensures Reported(Serve(request, ok), s, s') && ChangesReported(s, s')
  {
    hide Reported, ChangesReported, AnnouncedChanges, Complains, Surplus, Committed, TargetSettings;
    if ok {
      assert Processes(s.registry) == Processes(s'.registry);
      AnnouncedReported(request, ok, s, s', if force then 2 else 0);
    } else {
      ComplainsReported(request, ok, s, s', 1);
    }
  }

  lemma EngageReported(request: Request, ok: bool, s: State, ips: IpAddresses, s': State)
    requires HasInstance(s) && EngageStep(s, ips, s', ok)
    ensures Reported(Serve(request, ok), s, s') && ChangesReported(s, s')
  {
    hide Reported, ChangesReported, Complains, SyncStep, DetermineSplittingMode;
    if ok {
      var s1 := s.(fw := FwView(Some(ips), []), phase := Engaged);
      SyncReported(request, ok, s1, s', false);
      ReportedSame(request, ok, s, s', s1, s');
    } else {
      ComplainsReported(request, ok, s, s', 2);
    }
  }

  lemma LeaveReported(request: Request, ok: bool, s: State, s': State, left: bool)
    requires LeaveStep(s, s', left)
    ensures Reported(Serve(request, ok), s, s') && ChangesReported(s, s')
  {
    hide Reported, ChangesReported, Complains, AnnouncedChanges;
    if left {
      assert Processes(s.registry) == Processes(s'.registry);
      AnnouncedReported(request, ok, s, s', 0);
    } else {
      ComplainsReported(request, ok, s, s', 1);
    }
  }

  lemma RegisterIpAddressesReported(ips: IpAddresses, s: State, s': State, ok: bool)
    requires HasInstance(s) && RegisterIpAddressesStep(ips, s, s', ok)
    ensures Reported(Serve(RegisterIpAddresses(ips), ok), s, s') && ChangesReported(s, s')
  {
    hide Reported, ChangesReported, Complains, EngageStep, LeaveStep, Rebound, DetermineSplittingMode, ActiveTunnel;
    var request, s1 := RegisterIpAddresses(ips), if ok then s'.(ips := s.ips) else s';
    if s.phase == Ready && Configuration(s) != [] && VpnActive(ips) {
      EngageReported(request, ok, s, ips, s1);
      ReportedSame(request, ok, s, s', s, s1);
    } else if s.phase == Engaged && !VpnActive(ips) {
      LeaveReported(request, ok, s, s1, ok);
      ReportedSame(request, ok, s, s', s, s1);
    } else if s.phase == Engaged && !ok {
      ComplainsReported(request, ok, s, s', 1);
    } else {
      NothingReported(Serve(request, ok), s, s');
    }
  }

  lemma ReplaceReported(request: Request, images: ImageSet, s: State, s': State, ok: bool)
    requires HasInstance(s) && ReplaceConfigurationStep(images, s, s', ok)
    ensures Reported(Serve(request, ok), s, s') && ChangesReported(s, s')
  {
    hide Reported, ChangesReported, EngageStep, SyncStep;
    var id, pool := s.pool.created, s.pool.Create(images);
    var s1, s2 := s.(pool := pool, instance := Some(id)), s'.(pool := pool, instance := Some(id));
    if s.phase == Engaged {
      SyncReported(request, ok, s1, s2, true);
    } else if VpnActive(s.ips) {
      EngageReported(request, ok, s1, s.ips, s2);
    } else {
      NothingReported(Serve(request, ok), s1, s2);
    }
    ReportedSame(request, ok, s, s', s1, s2);
  }

  lemma SetConfigurationReported(fold: CaseFolding, b: W.Buffer, s: State, s': State, ok: bool)
    requires HasInstance(s) && SetConfigurationStep(fold, b, s, s', ok)
    ensures Reported(Serve(SetConfiguration(b), ok), s, s') && ChangesReported(s, s')
  {
    hide Reported, ChangesReported, ReplaceConfigurationStep, ImagesOf;
    if s' != s && s' != s.(pool := s.pool.Create([]).TearDown(s.pool.created)) {
      ReplaceReported(SetConfiguration(b), ImagesOf(fold, b, W.NumEntries(b)), s, s', ok);
    } else {
      NothingReported(Serve(SetConfiguration(b), ok), s, s');
    }
  }

  lemma ClearConfigurationReported(s: State, s': State, ok: bool)
    requires HasInstance(s) && ClearConfigurationStep(s, s', ok)
    ensures Reported(Serve(ClearConfiguration, ok), s, s') && ChangesReported(s, s')
  {
    hide Reported, ChangesReported, LeaveStep;
    if s.phase == Engaged {
      var s1 := if ok then s'.(pool := s.pool) else s';
      LeaveReported(ClearConfiguration, ok, s, s1, ok);
      ReportedSame(ClearConfiguration, ok, s, s', s, s1);
    } else {
      NothingReported(Serve(ClearConfiguration, ok), s, s');
    }
  }

  lemma FailedResetReported(s: State, s': State)
    requires ResetStep(s, s', false)
    ensures Reported(Serve(Reset, false), s, s') && ChangesReported(s, s')
  {
    hide Reported, ChangesReported, LeaveStep;
    if s.phase == Engaged {
      var s1 := s'.(phase := s.phase, subsystems := s.subsystems);
      if LeaveStep(s, s1, false) {
        LeaveReported(Reset, false, s, s1, false);
        ReportedSame(Reset, false, s, s', s, s1);
      } else {
        var s2 := s1.(phase := Ready);
        LeaveReported(Reset, false, s, s2, true);
        ReportedSame(Reset, false, s, s', s, s2);
      }
    } else {
      NothingReported(Serve(Reset, false), s, s');
    }
  }

  lemma RequestReported(fold: CaseFolding, request: Request, s: State, s': State, ok: bool)
    requires Inv(s) && RequestStep(fold, request, s, s', ok) && !(request.Reset? && ok)
    ensures Reported(Serve(request, ok), s, s') && ChangesReported(s, s')
  {
    hide Reported, ChangesReported, RegisterIpAddressesStep, SetConfigurationStep, ClearConfigurationStep, Loaded;
    hide ResetStep, PoolAccounted, Committed, StateOnlyIfSplitting, Conserved, W.WellFormed;
    if Served(s.phase, request) {
      match request {
        case RegisterIpAddresses(ips) => RegisterIpAddressesReported(ips, s, s', ok);
        case SetConfiguration(b) => SetConfigurationReported(fold, b, s, s', ok);
        case ClearConfiguration => ClearConfigurationReported(s, s', ok);
        case Reset => FailedResetReported(s, s');
        case _ => NothingReported(Serve(request, ok), s, s');
      }
    } else {
      NothingReported(Serve(request, ok), s, s');
    }
  }

  lemma ArrivalReported(p: Pid, parent: Pid, image: ImageName, s: State, s': State, added: bool, announced: bool)
    requires HasInstance(s) && ArrivalStep(p, parent, image, s, s', added, announced)
    ensures Reported(Arrive(p, parent, image, added, announced), s, s') && ChangesReported(s, s')
  {
    LookupListed(Configuration(s), image);
  }

  lemma LookupListed(images: ImageSet, image: ImageName)
    ensures Lookup(images, image).Some? <==> exists i :: 0 <= i < |images| && images[i].name == image
  {
    if Lookup(images, image).Some? {
      var i :| 0 <= i < |images| && images[i] == ImageEntry(image, Lookup(images, image).value);
    }
  }

  lemma FailedDepartureReported(p: Pid, s: State, s': State)
    requires DepartureStep(p, s, s', false) && p in s.registry && s.registry[p].settings.hasFirewallState
    ensures Reported(Depart(p, false), s, s') && ChangesReported(s, s')
  {
    hide ArrivalStatus;
    var complained := s'.log[..|s'.log| - 1];
    assert s'.log == complained + [StopSplittingError(p, s.registry[p].image)];
  }

  lemma DepartureReported(p: Pid, s: State, s': State, released: bool)
    requires Inv(s) && DepartureStep(p, s, s', released)
    ensures Reported(Depart(p, released), s, s') && ChangesReported(s, s')
  {
    hide IndexOf, Unregistered, Reported, ChangesReported, Complains, PhaseInvariant, PoolAccounted, Committed;
    hide Conserved;
    if p in s.registry && s.registry[p].settings.hasFirewallState && !released {
      FailedDepartureReported(p, s, s');
    } else if p in s.registry && SplittingEnabled(s.registry[p].settings.split) {
      OneEventReported(Depart(p, released), s, s', StopSplitting(p, Departing, s.registry[p].image));
    } else {
      NothingReported(Depart(p, released), s, s');
    }
  }

  lemma OneEventReported(step: Step, s: State, s': State, e: Event)
    requires s'.log == s.log + [e] && Explained(e, step, s, s')
    requires forall p :: p in s.registry && p in s'.registry ==> s'.registry[p].settings == s.registry[p].settings
    ensures Reported(step, s, s') && ChangesReported(s, s')
  {
    hide Explained;
  }

  /** Every step but a successful reset adds to the log. What it adds is about the step itself, and tells
      of every process that the step makes split or not. */
  lemma EventsOfStep(fold: CaseFolding, step: Step, s: State, s': State)
    requires Inv(s) && Next(fold, step, s, s')
    ensures if step.Serve? && step.request.Reset? && step.ok then s'.log == []
            else Reported(step, s, s') && ChangesReported(s, s')
  {
    hide RequestStep, ArrivalStep, DepartureStep, Reported, ChangesReported, Inv;
    match step {
      case Serve(request, ok) =>
        if request.Reset? && ok {
          ResetClearsLog(fold, s, s');
        } else {
          RequestReported(fold, request, s, s', ok);
        }
      case Arrive(p, parent, image, added, announced) => ArrivalReported(p, parent, image, s, s', added, announced);
      case Depart(p, released) => DepartureReported(p, s, s', released);
      case Ignore => NothingReported(step, s, s');
    }
  }

  lemma ResetClearsLog(fold: CaseFolding, s: State, s': State)
    requires Inv(s) && RequestStep(fold, Reset, s, s', true)
    ensures s'.log == []
  {
  }

  /** The `i`-th event in the log after `n` steps was logged by step `k`, which explains it. */
  ghost predicate LoggedBy(steps: seq<Step>, states: seq<State>, n: nat, i: nat, k: nat)
    requires k < n <= |steps| < |states| && i < |states[n].log|
  {
    && |states[k].log| <= i < |states[k + 1].log|
    && states[k + 1].log[i] == states[n].log[i]
    && Explained(states[n].log[i], steps[k], states[k], states[k + 1])
  }

  /** Every event in the log was logged by a step that explains it. */
  lemma {:induction false} EveryEventExplained(fold: CaseFolding, steps: seq<Step>, states: seq<State>, n: nat, i: nat)
    requires Run(fold, steps, states) && n <= |steps| && i < |states[n].log|
    ensures exists k :: 0 <= k < n && LoggedBy(steps, states, n, i, k)
  {
    hide Next, Inv, Explained;
    if n > 0 {
      RunInvariant(fold, steps, states, n - 1);
      EventsOfStep(fold, steps[n - 1], states[n - 1], states[n]);
      if i < |states[n - 1].log| {
        EveryEventExplained(fold, steps, states, n - 1, i);
        var k :| 0 <= k < n - 1 && LoggedBy(steps, states, n - 1, i, k);
        assert LoggedBy(steps, states, n, i, k);
      } else {
        assert LoggedBy(steps, states, n, i, n - 1);
      }
    }
  }
}
