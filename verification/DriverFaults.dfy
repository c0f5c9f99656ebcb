/**
 Failure has a cause: unless a call fails, each input does what it is for. The meter that the driver
 shares with its firewall counts the calls that fail.
 */
module DriverFaults {
  import opened SplitTypes
  import opened Ancestry
  import opened Propagation
  import opened Conservation
  import opened EventLog
  import opened AppFilters
  import opened Firewall
  import opened DriverSteps
  import opened DriverRuns
  import opened DriverInputs
  import W = WireFormat

  // ----- What an input leads to if no call fails -----

  /** A buffer that is accepted where it is mapped. */
  ghost predicate Acceptable(layout: W.Layout, address: nat, b: W.Buffer)
    requires W.Proper(layout)
  {
    address + |b| < W.SIZE_T_LIMIT && W.WellFormed(layout, b)
  }

  ghost predicate DistinctPids(b: W.Buffer)
    requires W.WellFormed(W.PROCESSES, b)
  {
    forall i, j :: 0 <= i < j < W.NumEntries(b) ==> PidAt(b, i) != PidAt(b, j)
  }

  /** Splitting is possible with these addresses, and not enabled already. */
  predicate CanEngage(s: State, ips: IpAddresses) {
    s.fw.addresses.None? && VpnActive(ips) && (IsSet(ips.internetV4) || IsSet(ips.internetV6))
  }

  /** The buffer that comes with a request is refused, or an empty configuration. */
  ghost predicate Rejected(request: Request, address: nat) {
    match request
    case RegisterProcesses(b) => !Acceptable(W.PROCESSES, address, b)
    case SetConfiguration(b) => !Acceptable(W.CONFIGURATION, address, b) || W.NumEntries(b) == 0
    case _ => false
  }

  /** What a request needs in order to succeed, besides that no call fails. */
  ghost predicate Succeeds(request: Request, address: nat, s: State) {
    match request
    case Initialize => s.phase == Started
    case RegisterProcesses(b) =>
      s.phase == Initialized && Acceptable(W.PROCESSES, address, b) && DistinctPids(b)
    case RegisterIpAddresses(ips) =>
      || (s.phase == Ready && HasInstance(s) && (Configuration(s) == [] || !VpnActive(ips) || CanEngage(s, ips)))
      || (s.phase == Engaged && (VpnActive(ips) ==> IsSet(ips.internetV4) || IsSet(ips.internetV6)))
    case SetConfiguration(b) =>
      && (s.phase == Engaged || (s.phase == Ready && (VpnActive(s.ips) ==> CanEngage(s, s.ips))))
      && Acceptable(W.CONFIGURATION, address, b) && W.NumEntries(b) > 0
    case Reset => s.phase != Zombie && (s.phase == Ready ==> s.fw.addresses.None?)
    case _ => s.phase == Ready || s.phase == Engaged
  }

  /** A new process is added, and anything else that uses its id is reported. */
  predicate ArrivalFulfilled(p: Pid, parent: Pid, image: ImageName, s: State, s': State, added: bool, announced: bool)
    requires HasInstance(s)
  {
    && announced && (added <==> p !in s.registry)
    && (p in s.registry ==>
          s'.log == s.log + if SameProcess(s.registry[p], parent, image) then []
                            else AddEntryErrorEvents(p, image, StatusOnArrival(s, parent, image) != Off))
  }

  /** The step is what the input asks for. Queries may fail for reasons of their own. */
  ghost predicate Fulfilled(input: Input, s: State, step: Step, s': State) {
    match step
    case Serve(request, ok) =>
      && input.Control? && (request.Query? || (ok <==> Succeeds(request, input.address, s)))
      && (Rejected(request, input.address) ==> s' == s)
    case Arrive(p, parent, image, added, announced) =>
      HasInstance(s) && ArrivalFulfilled(p, parent, image, s, s', added, announced)
    case Depart(_, released) => released
    case Ignore => true
  }

  /** Every input so far has led to the step that it asks for. */
  ghost predicate AllFulfilled(inputs: seq<Input>, steps: seq<Step>, states: seq<State>) {
    && |steps| <= |inputs| && |steps| < |states|
    && forall i :: 0 <= i < |steps| ==> Fulfilled(inputs[i], states[i], steps[i], states[i + 1])
  }

  lemma NothingToFulfil(inputs: seq<Input>, states: seq<State>)
    requires |states| == 1
    ensures AllFulfilled(inputs, [], states)
  {
  }

  lemma FulfilledSnoc(fold: CaseFolding, inputs: seq<Input>, steps: seq<Step>, states: seq<State>, s: State,
                      step: Step, s': State)
    requires Accomplished(fold, inputs, steps, states, s) && |steps| < |inputs|
    requires AllFulfilled(inputs, steps, states) && Fulfilled(inputs[|steps|], s, step, s')
    ensures AllFulfilled(inputs, steps + [step], states + [s'])
  {
    hide Fulfilled, Next, StepFor;
    var steps', states' := steps + [step], states + [s'];
    forall i | 0 <= i < |steps'|
      ensures Fulfilled(inputs[i], states'[i], steps'[i], states'[i + 1])
    {
      if i < |steps| {
        assert Fulfilled(inputs[i], states[i], steps[i], states[i + 1]);
      }
    }
  }

  // ----- What the methods of the driver depend on -----

  /** Every process with firewall state is accounted for by a registration. */
  ghost predicate Covered(blocked: BlockList, r: Registry) {
    forall image :: RefCount(blocked, image) >= Users(r, image)
  }

  /** Nothing but a failing call can keep the driver from engaging with the given addresses. */
  ghost predicate Engageable(fw: FwView, r: Registry, ips: IpAddresses) {
    fw.addresses.None? && DetermineSplittingMode(ips).Some? && Covered([], r)
  }

  /** Nothing but a failing call can keep the driver from accepting the addresses. */
  ghost predicate Registrable(s: State, ips: IpAddresses)
    requires HasInstance(s)
  {
    if s.phase == Ready then Configuration(s) != [] && VpnActive(ips) ==> Engageable(s.fw, s.registry, ips)
    else s.fw.addresses.Some? && (VpnActive(ips) ==> DetermineSplittingMode(ips).Some?)
  }

  /** Nothing but a failing call can keep the driver from replacing its configuration. */
  ghost predicate Replaceable(phase: Phase, ips: IpAddresses, fw: FwView, r: Registry) {
    if phase == Ready then VpnActive(ips) ==> Engageable(fw, r, ips)
    else fw.addresses.Some? && Covered(fw.blocked, r)
  }

  /** Nothing but a failing call can keep the driver from taking over the configuration in the buffer. */
  ghost predicate Settable(s: State, address: nat, b: W.Buffer) {
    Acceptable(W.CONFIGURATION, address, b) && W.NumEntries(b) > 0 && Replaceable(s.phase, s.ips, s.fw, s.registry)
  }

  lemma DepartingRegistered(blocked: BlockList, r: Registry, p: Pid)
    requires Covered(blocked, r) && p in r && r[p].settings.hasFirewallState
    ensures IndexOf(blocked, r[p].image) < |blocked|
  {
    hide IndexOf;
    assert p in UserSet(r, r[p].image);
    assert RefCount(blocked, r[p].image) >= Users(r, r[p].image);
  }

  /** In states that are reachable, registrations cover the registry, and there is nothing to cover as long
      as the driver is ready. */
  lemma InvCovered(s: State)
    requires Inv(s)
    ensures Covered(s.fw.blocked, s.registry)
    ensures s.phase == Ready ==> Covered([], s.registry)
  {
    hide RefCount, Users, Committed;
    forall image
      ensures RefCount(s.fw.blocked, image) >= Users(s.registry, image)
    {
      assert Surplus(s.fw, s.registry, image) == s.leaked[image];
    }
  }

  lemma InvDispatching(s: State)
    requires Inv(s) && (s.phase == Ready || s.phase == Engaged)
    ensures HasInstance(s) && s.subsystems == ALL_SUBSYSTEMS && Covered(s.fw.blocked, s.registry)
    ensures if s.phase == Ready then AllOff(s.registry) else s.fw.addresses.Some?
  {
    hide Committed, StateOnlyIfSplitting, Conserved, Covered;
    InvCovered(s);
  }

  lemma EngageableExactly(s: State, ips: IpAddresses)
    requires Inv(s) && s.phase == Ready
    ensures Engageable(s.fw, s.registry, ips) <==> CanEngage(s, ips)
  {
    hide Inv, Covered;
    InvCovered(s);
    ModeExists(ips);
  }

  lemma ServedExactly(request: Request, address: nat, s: State)
    ensures Succeeds(request, address, s) ==> Served(s.phase, request)
    ensures request.Initialize? || request.ClearConfiguration? ==>
              (Succeeds(request, address, s) <==> Served(s.phase, request))
  {
  }

  lemma LoadableExactly(s: State, address: nat, b: W.Buffer)
    requires s.phase == Initialized
    ensures Succeeds(RegisterProcesses(b), address, s) <==> Acceptable(W.PROCESSES, address, b) && DistinctPids(b)
  {
    hide Acceptable, DistinctPids;
  }

  lemma RegistrableExactly(s: State, address: nat, ips: IpAddresses)
    requires Inv(s) && HasInstance(s) && (s.phase == Ready || s.phase == Engaged)
    ensures Registrable(s, ips) <==> Succeeds(RegisterIpAddresses(ips), address, s)
  {
    hide Conserved, Committed, StateOnlyIfSplitting, PoolAccounted, Engageable, CanEngage, DetermineSplittingMode;
    ModeExists(ips);
    if s.phase == Ready {
      EngageableExactly(s, ips);
    }
  }

  lemma SettableExactly(s: State, address: nat, b: W.Buffer)
    requires Inv(s) && (s.phase == Ready || s.phase == Engaged)
    ensures Settable(s, address, b) <==> Succeeds(SetConfiguration(b), address, s)
  {
    hide Conserved, Committed, StateOnlyIfSplitting, PoolAccounted, Engageable, CanEngage, Acceptable, Covered;
    InvCovered(s);
    if s.phase == Ready {
      EngageableExactly(s, s.ips);
    }
  }

  // ----- Success needs what it needs -----

  lemma EngagedCould(s: State, ips: IpAddresses, s': State)
    requires HasInstance(s) && EngageStep(s, ips, s', true)
    ensures CanEngage(s, ips)
  {
    hide SyncStep;
    ModeExists(ips);
  }

  lemma RegisteredCould(s: State, address: nat, ips: IpAddresses, s': State)
    requires HasInstance(s) && RegisterIpAddressesStep(ips, s, s', true)
    ensures Succeeds(RegisterIpAddresses(ips), address, s)
  {
    hide EngageStep, LeaveStep, CanEngage, DetermineSplittingMode;
    ModeExists(ips);
    if s.phase == Ready && Configuration(s) != [] && VpnActive(ips) {
      EngagedCould(s, ips, s'.(ips := s.ips));
    }
  }

  lemma ReplacedCould(images: ImageSet, s: State, s': State)
    requires HasInstance(s) && ReplaceConfigurationStep(images, s, s', true)
    ensures s.phase == Engaged || (s.phase == Ready && (VpnActive(s.ips) ==> CanEngage(s, s.ips)))
  {
    hide EngageStep, SyncStep;
    var id, pool := s.pool.created, s.pool.Create(images);
    var s1 := s.(pool := pool, instance := Some(id));
    var s2 := s'.(pool := pool, instance := Some(id));
    if s.phase == Ready && VpnActive(s.ips) {
      EngagedCould(s1, s.ips, s2);
    }
  }

  lemma ConfiguredCould(fold: CaseFolding, s: State, address: nat, b: W.Buffer, s': State)
    requires HasInstance(s) && SetConfigurationStep(fold, b, s, s', true) && Acceptable(W.CONFIGURATION, address, b)
    ensures Succeeds(SetConfiguration(b), address, s)
  {
    hide ReplaceConfigurationStep, ImagesOf, CanEngage, Acceptable;
    ReplacedCould(ImagesOf(fold, b, W.NumEntries(b)), s, s');
  }

  lemma ResetCould(s: State, s': State)
    requires ResetStep(s, s', true)
    ensures Succeeds(Reset, 0, s)
  {
  }

  /** Unless a call fails, an arrival goes unreported only if it is new and not to be split, or known. */
  lemma CollisionsReported(fold: CaseFolding, input: Input, s: State, s': State, p: Pid, parent: Pid,
                           image: ImageName, added: bool, announced: bool)
    requires Next(fold, Arrive(p, parent, image, added, announced), s, s')
    requires Fulfilled(input, s, Arrive(p, parent, image, added, announced), s')
    ensures added <==> p !in s.registry
    ensures !added ==> s' == s.(log := s'.log)
    ensures !added ==>
              (s'.log == s.log <==> s.registry[p].parent == parent && s.registry[p].image == image)
  {
    hide ArrivalStatus;
  }

  // ----- Runs without a failing call -----

  /** Nothing has gone wrong: splitting is off unless the driver is engaged, and nothing has leaked. */
  predicate Sound(s: State) {
    s.phase != Zombie && s.leaked == multiset{} && (s.phase == Ready ==> s.fw == FW_OFF)
  }

  lemma RegisterIpAddressesSound(address: nat, ips: IpAddresses, s: State, s': State, ok: bool)
    requires Inv(s) && Sound(s) && HasInstance(s) && RegisterIpAddressesStep(ips, s, s', ok)
    requires ok <==> Succeeds(RegisterIpAddresses(ips), address, s)
    ensures Sound(s')
  {
    hide SyncStep, Announced, Complains, Conserved, PoolAccounted, StateOnlyIfSplitting, Rebound;
    hide DetermineSplittingMode;
    ModeExists(ips);
    if s.phase == Ready && ok && Configuration(s) != [] && VpnActive(ips) {
      SyncedState(s.(fw := FwView(Some(ips), []), phase := Engaged), s'.(ips := s.ips), false);
    }
  }

  /** A synchronization is about processes and the firewall only. */
  lemma SyncedState(s: State, s': State, force: bool)
    requires HasInstance(s) && SyncStep(s, s', true, force)
    ensures s' == s.(registry := s'.registry, fw := s'.fw, log := s'.log)
  {
    hide Announced, Surplus, Synced, Committed;
  }

  lemma ReplacedSound(images: ImageSet, s: State, s': State, ok: bool)
    requires Inv(s) && Sound(s) && HasInstance(s) && ReplaceConfigurationStep(images, s, s', ok)
    requires s.phase == Ready && !ok ==> !CanEngage(s, s.ips)
    ensures Sound(s')
  {
    hide SyncStep, Announced, Complains, Conserved, PoolAccounted, StateOnlyIfSplitting, DetermineSplittingMode;
    hide Committed;
    ModeExists(s.ips);
    var id, pool := s.pool.created, s.pool.Create(images);
    var s1, s2 := s.(pool := pool, instance := Some(id)), s'.(pool := pool, instance := Some(id));
    if s.phase == Engaged {
      SyncLeaks(s1, s2, ok, true);
    } else if VpnActive(s.ips) && ok {
      SyncLeaks(s1.(fw := FwView(Some(s.ips), []), phase := Engaged), s2, true, false);
    }
  }

  lemma SyncLeaks(s: State, s': State, ok: bool, force: bool)
    requires HasInstance(s) && SyncStep(s, s', ok, force)
    ensures s'.phase == s.phase && s'.leaked == s.leaked
  {
    hide Announced, Surplus, Synced, Committed, SameButTargets, Complains;
  }

  lemma SetConfigurationSound(fold: CaseFolding, address: nat, b: W.Buffer, s: State, s': State, ok: bool)
    requires Inv(s) && Sound(s) && HasInstance(s) && SetConfigurationStep(fold, b, s, s', ok)
    requires (s.phase == Ready || s.phase == Engaged) && (ok <==> Succeeds(SetConfiguration(b), address, s))
    requires Rejected(SetConfiguration(b), address) ==> s' == s
    ensures Sound(s')
  {
    hide Inv, ReplaceConfigurationStep, ImagesOf, CanEngage, Acceptable;
    if s' != s && s' != s.(pool := s.pool.Create([]).TearDown(s.pool.created)) {
      ReplacedSound(ImagesOf(fold, b, W.NumEntries(b)), s, s', ok);
    }
  }

  lemma RequestSound(fold: CaseFolding, address: nat, request: Request, s: State, s': State, ok: bool)
    requires Inv(s) && Sound(s) && RequestStep(fold, request, s, s', ok)
    requires !request.Query? ==> (ok <==> Succeeds(request, address, s))
    requires Rejected(request, address) ==> s' == s
    ensures Sound(s')
  {
    hide PoolAccounted, StateOnlyIfSplitting, Conserved, RegisterIpAddressesStep, SetConfigurationStep;
    hide Announced, Complains, Acceptable, Loaded, CanEngage;
    if Served(s.phase, request) {
      match request {
        case RegisterIpAddresses(ips) => RegisterIpAddressesSound(address, ips, s, s', ok);
        case SetConfiguration(b) => SetConfigurationSound(fold, address, b, s, s', ok);
        case _ =>
      }
    }
  }

  lemma DepartureSound(p: Pid, s: State, s': State)
    requires Inv(s) && Sound(s) && DepartureStep(p, s, s', true)
    ensures Sound(s')
  {
    hide Conserved, PoolAccounted, Committed, IndexOf, Unregistered, Removed;
  }

  lemma SoundStep(fold: CaseFolding, input: Input, step: Step, s: State, s': State)
    requires Inv(s) && Sound(s) && Next(fold, step, s, s') && Fulfilled(input, s, step, s')
    ensures Sound(s')
  {
    hide RequestStep, Inv, Succeeds, Rejected, ArrivalStatus, IndexOf, Unregistered, Complains, ArrivalFulfilled;
    match step {
      case Serve(request, ok) => RequestSound(fold, input.address, request, s, s', ok);
      case Arrive(_, _, _, _, _) =>
      case Depart(p, _) => DepartureSound(p, s, s');
      case Ignore =>
    }
  }

  /** In a run in which no call has failed, nothing has ever leaked, splitting was off whenever the driver
      was not engaged, and the driver has not become a zombie. */
  lemma {:induction false} SoundRun(fold: CaseFolding, inputs: seq<Input>, steps: seq<Step>, states: seq<State>, n: nat)
    requires Run(fold, steps, states) && AllFulfilled(inputs, steps, states) && n <= |steps|
    ensures Sound(states[n])
  {
    hide Next, Fulfilled, Inv;
    if n > 0 {
      SoundRun(fold, inputs, steps, states, n - 1);
      RunInvariant(fold, steps, states, n - 1);
      assert Fulfilled(inputs[n - 1], states[n - 1], steps[n - 1], states[n]);
      SoundStep(fold, inputs[n - 1], steps[n - 1], states[n - 1], states[n]);
    }
  }

  /** The addresses can be used for splitting: a tunnel, and something to split from it. */
  predicate Usable(ips: IpAddresses) {
    VpnActive(ips) && (IsSet(ips.internetV4) || IsSet(ips.internetV6))
  }

  lemma EngageOutcome(fold: CaseFolding, input: Input, ips: IpAddresses, s: State, s': State, ok: bool)
    requires Inv(s) && s.phase == Ready && HasInstance(s) && Configuration(s) != [] && s.fw == FW_OFF
    requires RegisterIpAddressesStep(ips, s, s', ok) && Fulfilled(input, s, Serve(RegisterIpAddresses(ips), ok), s')
    ensures if Usable(ips) then
              && ok && s'.phase == Engaged && s'.ips == ips && s'.fw.addresses == Some(ips)
              && s'.registry == Synced(s.registry, Configuration(s))
            else s'.phase == Ready && s'.fw == FW_OFF && (ok <==> !VpnActive(ips))
  {
    hide Announced, Complains, Conserved, PoolAccounted, StateOnlyIfSplitting, Committed, DetermineSplittingMode;
    ModeExists(ips);
  }

  /** In a run in which no call has failed, registering addresses engages a driver that has something to
      split exactly if the addresses can be used. */
  lemma RegisteringEngages(fold: CaseFolding, inputs: seq<Input>, steps: seq<Step>, states: seq<State>, n: nat)
    requires Run(fold, steps, states) && AllFulfilled(inputs, steps, states) && n < |steps|
    requires states[n].phase == Ready && HasInstance(states[n]) && Configuration(states[n]) != []
    requires steps[n].Serve? && steps[n].request.RegisterIpAddresses?
    ensures var ips, s, s' := steps[n].request.ips, states[n], states[n + 1];
            if Usable(ips) then
              && steps[n].ok && s'.phase == Engaged && s'.ips == ips && s'.fw.addresses == Some(ips)
              && s'.registry == Synced(s.registry, Configuration(s))
            else s'.phase == Ready && s'.fw == FW_OFF && (steps[n].ok <==> !VpnActive(ips))
  {
    hide Inv, Fulfilled, RegisterIpAddressesStep, Synced;
    RunInvariant(fold, steps, states, n);
    SoundRun(fold, inputs, steps, states, n);
    assert Fulfilled(inputs[n], states[n], steps[n], states[n + 1]);
    EngageOutcome(fold, inputs[n], steps[n].request.ips, states[n], states[n + 1], steps[n].ok);
  }
}
