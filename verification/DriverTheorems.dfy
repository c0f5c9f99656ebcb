/** Consequences of the invariant, and properties of runs that depend on what happens in them. */
module DriverTheorems {
  import opened SplitTypes
  import opened Ancestry
  import opened Propagation
  import opened Conservation
  import opened EventLog
  import opened WfpEngine
  import opened AppFilters
  import opened Firewall
  import opened DriverSteps
  import opened DriverRuns
  import W = WireFormat

  // ----- Consequences of the invariant -----

  /** The driver is engaged exactly when it has both an active tunnel and something to split. Every
      blocking filter is then conditioned on just the tunnel addresses that are set. */
  lemma EngagedExactly(s: State)
    requires Inv(s) && (s.phase == Ready || s.phase == Engaged)
    ensures HasInstance(s)
    ensures s.phase == Engaged <==> VpnActive(s.ips) && Configuration(s) != []
    ensures s.phase == Engaged ==> s.fw.addresses == Some(s.ips) && AllBoundTo(s.fw.blocked, ActiveTunnel(s.ips))
    ensures s.phase == Ready ==> s.fw.blocked == [] && SplittingSet(s.registry) == {}
  {
  }

  /** An image never has fewer registrations than users, and has more exactly if some leaked. */
  lemma RegistrationsCoverUsers(s: State, image: ImageName)
    requires Inv(s)
    ensures RefCount(s.fw.blocked, image) >= Users(s.registry, image)
    ensures RefCount(s.fw.blocked, image) == Users(s.registry, image) <==> image !in s.leaked
  {
    assert Surplus(s.fw, s.registry, image) == s.leaked[image];
  }

  /** No image set is live before initialization or after a reset, and exactly one in between. All
      others ever created have been torn down. */
  lemma ImageSetsAccounted(s: State)
    requires Inv(s)
    ensures s.pool.created == s.pool.tornDown + if s.phase == Started then 0 else 1
    ensures s.phase == Started <==> s.pool.live == map[]
    ensures s.phase != Started ==> HasInstance(s)
  {
    assert |s.pool.live| == |s.pool.live.Keys|;
    if s.phase != Started {
      assert |s.pool.live.Keys| == 1;
    }
  }

  /** The firewall is enabled although the driver is not engaged: splitting could not be disabled when
      entering the engaged state was rolled back. */
  predicate RollbackFailed(s: State) {
    s.phase == Ready && s.fw.addresses.Some?
  }

  lemma RollbackFailedStep(fold: CaseFolding, step: Step, s: State, s': State)
    requires Inv(s) && RollbackFailed(s) && Next(fold, step, s, s')
    ensures if IsReset(step) then !step.ok && s'.phase == Zombie else RollbackFailed(s') && s'.fw == s.fw
  {
    hide PoolAccounted, Committed, Conserved, StateOnlyIfSplitting, Complains, Announced, W.WellFormed, ArrivalStatus;
  }

  lemma ZombieStep(fold: CaseFolding, step: Step, s: State, s': State)
    requires s.phase == Zombie && Next(fold, step, s, s')
    ensures s' == s && (step.Serve? ==> !step.ok)
  {
  }

  predicate IsReset(step: Step) {
    step.Serve? && step.request.Reset?
  }

  /** After a failed rollback the driver never engages again. It stays as it is, with the firewall enabled,
      until the first reset, and from then on it is a zombie that serves no request. */
  lemma {:induction false} FailedRollbackIsFinal(fold: CaseFolding, steps: seq<Step>, states: seq<State>,
                                                 m: nat, n: nat)
    requires Run(fold, steps, states) && m <= n <= |steps| && RollbackFailed(states[m])
    ensures if exists i :: m <= i < n && IsReset(steps[i]) then states[n].phase == Zombie
            else RollbackFailed(states[n]) && states[n].fw == states[m].fw
  {
    hide Next, Inv, RollbackFailed;
    if m < n {
      FailedRollbackIsFinal(fold, steps, states, m, n - 1);
      RunInvariant(fold, steps, states, n - 1);
      if exists i :: m <= i < n - 1 && IsReset(steps[i]) {
        ZombieStep(fold, steps[n - 1], states[n - 1], states[n]);
      } else {
        RollbackFailedStep(fold, steps[n - 1], states[n - 1], states[n]);
      }
    }
  }

  // ----- Leaks -----

  /** A departure that the firewall could not be told about. */
  predicate LeakyDeparture(step: Step, s: State) {
    step.Depart? && step.pid in s.registry && s.registry[step.pid].settings.hasFirewallState && !step.released
  }

  lemma RequestLeaks(fold: CaseFolding, request: Request, s: State, s': State, ok: bool)
    requires Inv(s) && RequestStep(fold, request, s, s', ok)
    ensures s'.leaked <= s.leaked
  {
    hide Committed, Conserved, StateOnlyIfSplitting, PoolAccounted, Announced, Complains, SameButTargets;
    assert multiset{} <= s.leaked;
  }

  /** Only leaky departures add to what is leaked, and each adds its own image once. */
  lemma LeakStep(fold: CaseFolding, step: Step, s: State, s': State)
    requires Inv(s) && Next(fold, step, s, s')
    ensures if LeakyDeparture(step, s) then s'.leaked == s.leaked + multiset{s.registry[step.pid].image}
            else s'.leaked <= s.leaked
  {
    hide Inv, RequestStep;
    if step.Serve? {
      RequestLeaks(fold, step.request, s, s', step.ok);
    }
  }

  /** Without such departures, the firewall accounts for exactly the processes with firewall state. */
  lemma {:induction false} NoLeaks(fold: CaseFolding, steps: seq<Step>, states: seq<State>, n: nat)
    requires Run(fold, steps, states) && n <= |steps|
    requires forall i :: 0 <= i < n ==> !LeakyDeparture(steps[i], states[i])
    ensures states[n].leaked == multiset{}
    ensures forall image :: RefCount(states[n].fw.blocked, image) == Users(states[n].registry, image)
  {
    if n > 0 {
      NoLeaks(fold, steps, states, n - 1);
      RunInvariant(fold, steps, states, n - 1);
      LeakStep(fold, steps[n - 1], states[n - 1], states[n]);
    }
    RunInvariant(fold, steps, states, n);
    forall image {
      RegistrationsCoverUsers(states[n], image);
    }
  }

  // ----- Firewall state -----

  /** Firewall state and splitting go together. */
  ghost predicate StateIffSplitting(r: Registry) {
    forall p :: p in r ==> (r[p].settings.hasFirewallState <==> SplittingEnabled(r[p].settings.split))
  }

  predicate ArrivesSplitting(step: Step, s: State)
    requires HasInstance(s)
  {
    step.Arrive? && step.added && SplittingEnabled(StatusOnArrival(s, step.parent, step.image))
  }

  lemma SyncFirewallState(s: State, s': State, ok: bool, force: bool)
    requires HasInstance(s) && SyncStep(s, s', ok, force) && StateIffSplitting(s.registry)
    ensures StateIffSplitting(s'.registry)
  {
  }

  lemma EngageFirewallState(s: State, ips: IpAddresses, s': State, ok: bool)
    requires HasInstance(s) && EngageStep(s, ips, s', ok) && StateIffSplitting(s.registry)
    ensures StateIffSplitting(s'.registry)
  {
    if ok {
      SyncFirewallState(s.(fw := FwView(Some(ips), []), phase := Engaged), s', true, false);
    }
  }

  lemma ReplaceFirewallState(images: ImageSet, s: State, s': State, ok: bool)
    requires HasInstance(s) && ReplaceConfigurationStep(images, s, s', ok) && StateIffSplitting(s.registry)
    ensures StateIffSplitting(s'.registry)
  {
    hide SyncStep, EngageStep, StateIffSplitting;
    var id, pool := s.pool.created, s.pool.Create(images);
    var s1 := s.(pool := pool, instance := Some(id));
    var s2 := s'.(pool := pool, instance := Some(id));
    if s.phase == Engaged {
      SyncFirewallState(s1, s2, ok, true);
    } else if VpnActive(s.ips) {
      EngageFirewallState(s1, s.ips, s2, ok);
    }
  }

  lemma RequestFirewallState(fold: CaseFolding, request: Request, s: State, s': State, ok: bool)
    requires RequestStep(fold, request, s, s', ok) && StateIffSplitting(s.registry)
    ensures StateIffSplitting(s'.registry)
  {
    hide SyncStep, EngageStep, Announced, ReplaceConfigurationStep;
    if Served(s.phase, request) {
      match request {
        case RegisterIpAddresses(ips) =>
          if s.phase == Ready && Configuration(s) != [] && VpnActive(ips) {
            EngageFirewallState(s, ips, if ok then s'.(ips := s.ips) else s', ok);
          }
        case SetConfiguration(b) =>
          if s'.registry != s.registry {
            ReplaceFirewallState(ImagesOf(fold, b, W.NumEntries(b)), s, s', ok);
          }
        case _ =>
      }
    }
  }

  /** Only a process that arrives splitting is without firewall state although it splits. */
  lemma FirewallStateStep(fold: CaseFolding, step: Step, s: State, s': State)
    requires Next(fold, step, s, s') && StateIffSplitting(s.registry)
    ensures StateIffSplitting(s'.registry) <==> !(step.Arrive? && HasInstance(s) && ArrivesSplitting(step, s))
  {
    hide RequestStep;
    if step.Serve? {
      RequestFirewallState(fold, step.request, s, s', step.ok);
    }
    if step.Arrive? && step.added {
      assert s'.registry[step.pid].settings == Settings(StatusOnArrival(s, step.parent, step.image), false);
    }
  }

  /** As long as no process arrives splitting, having firewall state and splitting are the same. */
  lemma {:induction false} FirewallStateRun(fold: CaseFolding, steps: seq<Step>, states: seq<State>, n: nat)
    requires Run(fold, steps, states) && n <= |steps|
    requires forall i :: 0 <= i < n && HasInstance(states[i]) ==> !ArrivesSplitting(steps[i], states[i])
    ensures StateIffSplitting(states[n].registry)
  {
    hide Next;
    if n > 0 {
      FirewallStateRun(fold, steps, states, n - 1);
      FirewallStateStep(fold, steps[n - 1], states[n - 1], states[n]);
    }
  }

  // ----- The event log -----

  /** Steps after which the log still tells exactly which processes are splitting: a process that
      arrives hybrid is not announced, one that arrives splitting is, and the firewall can be told
      about departures. */
  predicate Quiet(step: Step, s: State) {
    match step
    case Serve(_, _) => true
    case Arrive(p, parent, image, added, announced) =>
      added && HasInstance(s) ==>
        var status := StatusOnArrival(s, parent, image);
        (status == HybridByConfig ==> !announced) && (SplittingEnabled(status) ==> announced)
    case Depart(_, _) => !LeakyDeparture(step, s)
    case Ignore => true
  }

  lemma AnnouncedFaithful(s: State, s': State, most: nat)
    requires Announced(s, s', most) && Faithful(s.log, s.registry)
    ensures Faithful(s'.log, s'.registry)
  {
    hide Faithful, AnnouncedChanges;
    AnnouncedChangesFaithful(s.log, s'.log, s.registry, s'.registry, most);
  }

  lemma SameSettingsFaithful(log: Log, r: Registry, r': Registry)
    requires r'.Keys == r.Keys && forall p :: p in r ==> r'[p].settings == r[p].settings
    requires Faithful(log, r)
    ensures Faithful(log, r')
  {
    assert SplittingSet(r') == SplittingSet(r);
  }

  lemma NothingSplittingFaithful(r: Registry)
    requires AllOff(r)
    ensures Faithful([], r)
  {
    assert SplittingSet(r) == {};
  }

  lemma SyncFaithful(s: State, s': State, ok: bool, force: bool)
    requires HasInstance(s) && SyncStep(s, s', ok, force) && Faithful(s.log, s.registry)
    ensures Faithful(s'.log, s'.registry)
  {
    hide Faithful, Complains, AnnouncedChanges;
    if ok {
      AnnouncedFaithful(s, s', if force then 2 else 0);
    } else {
      ComplainsFaithful(s.log, s'.log, 1, s.registry);
      SameSettingsFaithful(s'.log, s.registry, s'.registry);
    }
  }

  lemma LeaveFaithful(s: State, s': State, ok: bool)
    requires LeaveStep(s, s', ok) && Faithful(s.log, s.registry)
    ensures Faithful(s'.log, s'.registry)
  {
    hide Faithful, Complains, AnnouncedChanges;
    if ok {
      AnnouncedFaithful(s, s', 0);
    } else {
      ComplainsFaithful(s.log, s'.log, 1, s.registry);
    }
  }

  lemma EngageFaithful(s: State, ips: IpAddresses, s': State, ok: bool)
    requires HasInstance(s) && EngageStep(s, ips, s', ok) && Faithful(s.log, s.registry)
    ensures Faithful(s'.log, s'.registry)
  {
    hide Faithful, Complains, SyncStep;
    if ok {
      SyncFaithful(s.(fw := FwView(Some(ips), []), phase := Engaged), s', true, false);
    } else {
      ComplainsFaithful(s.log, s'.log, 2, s.registry);
      SameSettingsFaithful(s'.log, s.registry, s'.registry);
    }
  }

  lemma RequestFaithful(fold: CaseFolding, request: Request, s: State, s': State, ok: bool)
    requires Inv(s) && RequestStep(fold, request, s, s', ok) && Faithful(s.log, s.registry)
    ensures Faithful(s'.log, s'.registry)
  {
    hide Inv, Faithful, Announced, Complains, SyncStep, EngageStep, LeaveStep;
    if Served(s.phase, request) {
      match request {
        case Initialize =>
          NothingSplittingFaithful(map[]);
        case RegisterProcesses(b) =>
          InitializedLog(s);
          NothingSplittingFaithful(s'.registry);
        case RegisterIpAddresses(ips) =>
          if s.phase == Ready && Configuration(s) != [] && VpnActive(ips) {
            EngageFaithful(s, ips, if ok then s'.(ips := s.ips) else s', ok);
          } else if s.phase == Engaged && !VpnActive(ips) {
            LeaveFaithful(s, if ok then s'.(ips := s.ips) else s', ok);
          } else if s.phase == Engaged && !ok {
            ComplainsFaithful(s.log, s'.log, 1, s.registry);
          }
        case SetConfiguration(b) =>
          if s'.log != s.log || s'.registry != s.registry {
            ReplaceFaithful(ImagesOf(fold, b, W.NumEntries(b)), s, s', ok);
          }
        case ClearConfiguration =>
          if s.phase == Engaged {
            LeaveFaithful(s, if ok then s'.(pool := s.pool) else s', ok);
          }
        case Query =>
        case Reset =>
          NothingSplittingFaithful(map[]);
          if !ok && s.phase == Engaged {
            var s1 := s'.(phase := s.phase, subsystems := s.subsystems);
            if LeaveStep(s, s1, false) {
              LeaveFaithful(s, s1, false);
            } else {
              LeaveFaithful(s, s1.(phase := Ready), true);
            }
          }
      }
    }
  }

  lemma InitializedLog(s: State)
    requires Inv(s) && s.phase == Initialized
    ensures s.log == [] && s.registry == map[]
  {
  }

  lemma ReplaceFaithful(images: ImageSet, s: State, s': State, ok: bool)
    requires HasInstance(s) && ReplaceConfigurationStep(images, s, s', ok) && Faithful(s.log, s.registry)
    ensures Faithful(s'.log, s'.registry)
  {
    hide Faithful, SyncStep, EngageStep;
    var id, pool := s.pool.created, s.pool.Create(images);
    var s1 := s.(pool := pool, instance := Some(id));
    var s2 := s'.(pool := pool, instance := Some(id));
    if s.phase == Engaged {
      SyncFaithful(s1, s2, ok, true);
    } else if VpnActive(s.ips) {
      EngageFaithful(s1, s.ips, s2, ok);
    }
  }

  /** One more event keeps the log faithful exactly when it tells how the splitting processes change. */
  lemma FaithfulSnoc(log: Log, e: Event, r: Registry, r': Registry)
    requires Faithful(log, r)
    ensures Faithful(log + [e], r')
            <==> Fits(SplittingSet(r), e) && Believe(SplittingSet(r), e) == SplittingSet(r')
  {
    hide Replay, Alternates, SplittingSet;
    ReplaySnoc(log, e);
  }

  /** Without a new event, the splitting processes must not change. */
  lemma FaithfulSame(log: Log, r: Registry, r': Registry)
    requires Faithful(log, r)
    ensures Faithful(log, r') <==> SplittingSet(r') == SplittingSet(r)
  {
    hide Replay, Alternates, SplittingSet;
  }

  lemma ErrorsFaithful(log: Log, r: Registry, p: Pid, image: ImageName, emitSplittingEvent: bool)
    requires Faithful(log, r)
    ensures Faithful(log + AddEntryErrorEvents(p, image, emitSplittingEvent), r)
  {
    hide Replay, Alternates, SplittingSet;
    FaithfulSnoc(log, ErrorMessage, r, r);
    if emitSplittingEvent {
      FaithfulSnoc(log + [ErrorMessage], StartSplittingError(p, image), r, r);
      assert log + [ErrorMessage] + [StartSplittingError(p, image)] == log + AddEntryErrorEvents(p, image, true);
    }
  }

  /** An arrival keeps the log faithful exactly when what it logs is what the process does. */
  lemma ArrivalFaithful(p: Pid, parent: Pid, image: ImageName, s: State, s': State, added: bool, announced: bool)
    requires HasInstance(s) && ArrivalStep(p, parent, image, s, s', added, announced)
    requires Faithful(s.log, s.registry)
    ensures Faithful(s'.log, s'.registry) <==> Quiet(Arrive(p, parent, image, added, announced), s)
  {
    hide Faithful, Replay, Alternates, StatusOnArrival;
    var status := StatusOnArrival(s, parent, image);
    var due := announced && status != Off;
    if added {
      assert p !in SplittingSet(s.registry);
      assert SplittingSet(s'.registry) == SplittingSet(s.registry) + if SplittingEnabled(status) then {p} else {};
      if due {
        FaithfulSnoc(s.log, ArrivalEvents(p, image, status)[0], s.registry, s'.registry);
      } else {
        assert s'.log == s.log;
        FaithfulSame(s.log, s.registry, s'.registry);
      }
    } else {
      ErrorsFaithful(s.log, s.registry, p, image, due);
    }
  }

  /** A departure keeps the log faithful exactly when the firewall could be told about it. */
  lemma DepartureFaithful(p: Pid, s: State, s': State, released: bool)
    requires StateOnlyIfSplitting(s.registry) && DepartureStep(p, s, s', released)
    requires Faithful(s.log, s.registry)
    ensures Faithful(s'.log, s'.registry) <==> Quiet(Depart(p, released), s)
  {
    hide Faithful, Replay, Alternates, Unregistered, IndexOf, Complains;
    if p in s.registry {
      var e := s.registry[p];
      assert SplittingSet(s'.registry) == SplittingSet(s.registry) - {p};
      assert p in SplittingSet(s.registry) <==> SplittingEnabled(e.settings.split);
      FaithfulSame(s.log, s.registry, s'.registry);
      FaithfulSnoc(s.log, StopSplitting(p, Departing, e.image), s.registry, s'.registry);
      if e.settings.hasFirewallState && !released {
        var complained := s'.log[..|s'.log| - 1];
        ComplainsFaithful(s.log, complained, 1, s.registry);
        FaithfulSnoc(complained, StopSplittingError(p, e.image), s.registry, s'.registry);
        assert s'.log == complained + [StopSplittingError(p, e.image)];
      }
    }
  }

  /** Before an arrival, what is needed for the log to stay faithful whatever fails: the process is known
      already, or it arrives with a status that no event is due for. */
  lemma ArrivalSurelyFaithful(p: Pid, parent: Pid, image: ImageName, s: State)
    requires HasInstance(s) && Faithful(s.log, s.registry)
    ensures (forall s', added, announced :: ArrivalStep(p, parent, image, s, s', added, announced)
                                            ==> Faithful(s'.log, s'.registry))
            <==> p in s.registry || StatusOnArrival(s, parent, image) == Off
  {
    hide Faithful, StatusOnArrival;
    forall s', added, announced | ArrivalStep(p, parent, image, s, s', added, announced)
      ensures Faithful(s'.log, s'.registry) <==> Quiet(Arrive(p, parent, image, added, announced), s)
    {
      ArrivalFaithful(p, parent, image, s, s', added, announced);
    }
    var status := StatusOnArrival(s, parent, image);
    if p !in s.registry && status != Off {
      var announced := status == HybridByConfig;
      var s' := s.(registry := s.registry[p := FreshEntry(parent, image, status)],
                   log := s.log + if announced then ArrivalEvents(p, image, status) else []);
      assert ArrivalStep(p, parent, image, s, s', true, announced);
    }
  }

  /** What a departure does if the firewall cannot be told. */
  function Unreleased(p: Pid, s: State): State
    requires p in s.registry
  {
    var image := s.registry[p].image;
    s.(registry := Removed(s.registry, p), log := s.log + [StopSplittingError(p, image)],
       leaked := s.leaked + multiset{image})
  }

  lemma UnreleasedStep(p: Pid, s: State)
    requires p in s.registry && s.registry[p].settings.hasFirewallState
    ensures DepartureStep(p, s, Unreleased(p, s), false)
  {
    var log' := Unreleased(p, s).log;
    assert log'[..|log'| - 1] == s.log;
  }

  /** Before a departure, what is needed for the log to stay faithful whatever fails. */
  lemma DepartureSurelyFaithful(p: Pid, s: State)
    requires StateOnlyIfSplitting(s.registry) && Faithful(s.log, s.registry)
    ensures (forall s', released :: DepartureStep(p, s, s', released) ==> Faithful(s'.log, s'.registry))
            <==> !(p in s.registry && s.registry[p].settings.hasFirewallState)
  {
    hide Faithful, DepartureStep;
    forall s', released | DepartureStep(p, s, s', released)
      ensures Faithful(s'.log, s'.registry) <==> Quiet(Depart(p, released), s)
    {
      DepartureFaithful(p, s, s', released);
    }
    if p in s.registry && s.registry[p].settings.hasFirewallState {
      UnreleasedStep(p, s);
    }
  }

  /** Nothing can leak with a process that has no firewall state, and something may with one that has. */
  lemma DepartureSurelyReleases(p: Pid, s: State)
    ensures (forall s', released :: DepartureStep(p, s, s', released) ==> s'.leaked == s.leaked)
            <==> !(p in s.registry && s.registry[p].settings.hasFirewallState)
  {
    if p in s.registry && s.registry[p].settings.hasFirewallState {
      UnreleasedStep(p, s);
      var image := s.registry[p].image;
      assert Unreleased(p, s).leaked[image] == s.leaked[image] + 1;
    }
  }

  /** Every step keeps the log faithful exactly when it is quiet. Requests always are. */
  lemma FaithfulStep(fold: CaseFolding, step: Step, s: State, s': State)
    requires Inv(s) && Next(fold, step, s, s') && Faithful(s.log, s.registry)
    ensures Faithful(s'.log, s'.registry) <==> Quiet(step, s)
  {
    match step {
      case Serve(request, ok) => RequestFaithful(fold, request, s, s', ok);
      case Arrive(p, parent, image, added, announced) => ArrivalFaithful(p, parent, image, s, s', added, announced);
      case Depart(p, released) => DepartureFaithful(p, s, s', released);
      case Ignore =>
    }
  }

  /** Replaying the log of a run of quiet steps gives exactly the processes that are splitting. */
  lemma {:induction false} FaithfulRun(fold: CaseFolding, steps: seq<Step>, states: seq<State>, n: nat)
    requires Run(fold, steps, states) && n <= |steps|
    requires forall i :: 0 <= i < n ==> Quiet(steps[i], states[i])
    ensures Faithful(states[n].log, states[n].registry)
  {
    if n == 0 {
      NothingSplittingFaithful(map[]);
    } else {
      FaithfulRun(fold, steps, states, n - 1);
      RunInvariant(fold, steps, states, n - 1);
      FaithfulStep(fold, steps[n - 1], states[n - 1], states[n]);
    }
  }

  // ----- Settings between synchronizations -----

  ghost predicate EngagedStable(s: State) {
    s.phase == Engaged && HasInstance(s) ==> Stable(s.registry, Configuration(s))
  }

  /** Steps that leave settings as a synchronization would compute them: only the arrival of a disturbing
      process, if it is added, and the departure of a hybrid orphan's parent part from that. */
  ghost predicate Undisturbed(step: Step, s: State)
    requires HasInstance(s)
  {
    match step
    case Arrive(p, parent, image, added, _) =>
      !(added && DisturbingArrival(s.registry, Configuration(s), p, parent, image))
    case Depart(p, _) =>
      p in s.registry ==> forall q :: q in s.registry ==> !HybridOrphan(s.registry, Configuration(s), p, q)
    case _ => true
  }

  lemma StableSameButTargets(r: Registry, r': Registry, images: ImageSet)
    requires SameButTargets(r, r') && Stable(r, images)
    ensures Stable(r', images)
  {
    forall p | p in r {
      TargetSameSettings(r, r', images, p);
    }
  }

  lemma SyncEngagedStable(s: State, s': State, ok: bool, force: bool)
    requires HasInstance(s) && SyncStep(s, s', ok, force)
    ensures ok || Stable(s.registry, Configuration(s)) ==> Stable(s'.registry, Configuration(s))
  {
    if ok {
      SyncedStable(s.registry, Configuration(s));
    } else if Stable(s.registry, Configuration(s)) {
      StableSameButTargets(s.registry, s'.registry, Configuration(s));
    }
  }

  lemma RequestStable(fold: CaseFolding, request: Request, s: State, s': State, ok: bool)
    requires Inv(s) && RequestStep(fold, request, s, s', ok) && EngagedStable(s)
    ensures EngagedStable(s')
  {
    hide Committed, Conserved, StateOnlyIfSplitting, PoolAccounted, Announced, Complains, Surplus, Synced;
    if s'.phase == Engaged && Served(s.phase, request) {
      match request {
        case RegisterIpAddresses(ips) =>
          if s.phase == Ready && ok {
            SyncEngagedStable(s.(fw := FwView(Some(ips), []), phase := Engaged), s'.(ips := s.ips), true, false);
          }
        case SetConfiguration(b) =>
          if s' != s && s' != s.(pool := s.pool.Create([]).TearDown(s.pool.created)) {
            ReplaceStable(ImagesOf(fold, b, W.NumEntries(b)), s, s', ok);
          }
        case _ =>
      }
    }
  }

  lemma ReplaceStable(images: ImageSet, s: State, s': State, ok: bool)
    requires Inv(s) && HasInstance(s) && EngagedStable(s)
    requires ReplaceConfigurationStep(images, s, s', ok)
    ensures EngagedStable(s')
  {
    var id, pool := s.pool.created, s.pool.Create(images);
    var s1 := s.(pool := pool, instance := Some(id));
    var s2 := s'.(pool := pool, instance := Some(id));
    if s.phase == Engaged {
      SyncEngagedStable(s1, s2, ok, true);
      if !ok {
        StableSameButTargets(s.registry, s'.registry, Configuration(s));
      }
    } else if VpnActive(s.ips) && ok {
      SyncEngagedStable(s1.(fw := FwView(Some(s.ips), []), phase := Engaged), s2, true, false);
    }
  }

  /** While engaged, every step leaves settings as a synchronization would compute them, exactly when
      it is undisturbed. */
  lemma StableStep(fold: CaseFolding, step: Step, s: State, s': State)
    requires Inv(s) && Next(fold, step, s, s') && EngagedStable(s)
    ensures s'.phase == Engaged && !step.Serve? ==> HasInstance(s) && (EngagedStable(s') <==> Undisturbed(step, s))
    ensures step.Serve? ==> EngagedStable(s')
  {
    hide Stable, RequestStep, Committed, Conserved, StateOnlyIfSplitting, PoolAccounted, ArrivalStatus;
    hide DisturbingArrival, HybridOrphan, Complains, IndexOf;
    match step {
      case Serve(request, ok) =>
        RequestStable(fold, request, s, s', ok);
      case Arrive(p, parent, image, added, _) =>
        if s.phase == Engaged && added {
          ArrivalRefinesSync(s.registry, Configuration(s), p, parent, image);
        }
      case Depart(p, _) =>
        if s.phase == Engaged && p in s.registry {
          DepartureRefinesSync(s.registry, Configuration(s), p);
        }
      case Ignore =>
    }
  }

  /** Before an arrival, what is needed for settings to stay as a synchronization would compute them
      whatever fails. */
  lemma ArrivalSurelyStable(p: Pid, parent: Pid, image: ImageName, s: State)
    requires s.phase == Engaged && HasInstance(s) && EngagedStable(s)
    ensures (forall s', added, announced :: ArrivalStep(p, parent, image, s, s', added, announced)
                                            ==> EngagedStable(s'))
            <==> p in s.registry || !DisturbingArrival(s.registry, Configuration(s), p, parent, image)
  {
    hide Stable, ArrivalStatus, DisturbingArrival;
    if p !in s.registry {
      ArrivalRefinesSync(s.registry, Configuration(s), p, parent, image);
      var s' := s.(registry := s.registry[p := FreshEntry(parent, image, StatusOnArrival(s, parent, image))]);
      assert ArrivalStep(p, parent, image, s, s', true, false);
    }
  }

  /** Before a departure, which cannot fail to remove the process. */
  lemma DepartureSurelyStable(p: Pid, s: State)
    requires s.phase == Engaged && HasInstance(s) && EngagedStable(s)
    ensures forall s', released :: DepartureStep(p, s, s', released) ==>
              (EngagedStable(s') <==> Undisturbed(Depart(p, released), s))
  {
    hide Stable, HybridOrphan, Complains, IndexOf;
    if p in s.registry {
      DepartureRefinesSync(s.registry, Configuration(s), p);
    }
  }

  /** Synchronizing a stable registry is silent: no settings, no registration and no announcement. What
      the log may gain is up to two error messages, if filters that force reauthorization stay behind. */
  lemma StableSyncIsSilent(s: State, s': State, force: bool)
    requires HasInstance(s) && SyncStep(s, s', true, force)
    requires Stable(s.registry, Configuration(s)) && StateOnlyIfSplitting(s.registry)
    ensures forall p :: p in s.registry ==> s'.registry[p].settings == s.registry[p].settings
    ensures forall image :: RefCount(s'.fw.blocked, image) == RefCount(s.fw.blocked, image)
    ensures Complains(s.log, s'.log, if force then 2 else 0)
  {
    forall image
      ensures RefCount(s'.fw.blocked, image) == RefCount(s.fw.blocked, image)
    {
      assert UserSet(s'.registry, image) == UserSet(s.registry, image);
      assert Surplus(s'.fw, s'.registry, image) == Surplus(s.fw, s.registry, image);
    }
    NothingAnnouncedComplains(s.log, s'.log, s.registry, s'.registry, if force then 2 else 0);
  }

  lemma NothingAnnouncedComplains(log: Log, log': Log, r: Registry, r': Registry, most: nat)
    requires r.Keys == r'.Keys && AnnouncedChanges(log, log', r, r', most)
    requires forall p :: p in r ==> r'[p].settings == r[p].settings
    ensures Complains(log, log', most)
  {
    hide Announces, Complains;
    var from: nat :| AnnouncedFrom(log, log', r, r', most, from);
    NothingToAnnounce(log'[from..], r, r');
    assert log'[..from] == log';
  }

  /** In a run without such arrivals and departures, the settings of an engaged driver are always
      those that synchronizing its current configuration would compute. */
  lemma {:induction false} StableRun(fold: CaseFolding, steps: seq<Step>, states: seq<State>, n: nat)
    requires Run(fold, steps, states) && n <= |steps|
    requires forall i :: 0 <= i < n && HasInstance(states[i]) ==> Undisturbed(steps[i], states[i])
    ensures EngagedStable(states[n])
  {
    hide Inv, Next, Undisturbed, Stable;
    if n > 0 {
      StableRun(fold, steps, states, n - 1);
      RunInvariant(fold, steps, states, n - 1);
      StableStep(fold, steps[n - 1], states[n - 1], states[n]);
    }
  }
}
