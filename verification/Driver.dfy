/**
 The device context and its request handlers. Each method performs one of the steps that
 module DriverSteps allows.
 */
module Driver {
  import opened SplitTypes
  import opened Ancestry
  import opened Propagation
  import opened Conservation
  import opened EventLog
  import opened WfpEngine
  import opened AppFilters
  import opened Firewall
  import opened DriverSteps
  import opened DriverRuns
  import opened DriverInputs
  import opened DriverFaults
  import W = WireFormat

  /** The targets of the processes in `done` are their seeds. */
  ghost predicate Seeded(r: Registry, images: ImageSet, r': Registry, done: set<Pid>) {
    SameButTargets(r, r') && forall p :: p in done && p in r ==> r'[p].target.split == Seed(images, r[p])
  }

  lemma SeededTargets(r: Registry, images: ImageSet, r': Registry)
    requires Seeded(r, images, r', r'.Keys)
    ensures SameButTargets(r, r')
  {
  }

  /** The targets of the processes in `done` are final, and those of the others are their seeds. */
  ghost predicate Propagating(r: Registry, images: ImageSet, r': Registry, done: set<Pid>) {
    && SameButTargets(r, r')
    && forall p :: p in r ==>
         if p in done then r'[p].target == TargetSettings(r, images, p)
         else r'[p].target.split == Seed(images, r[p])
  }

  /** In the middle of propagation, a target that splits always has a reason to. */
  lemma PropagatingSplits(r: Registry, images: ImageSet, r': Registry, done: set<Pid>, p: Pid)
    requires Propagating(r, images, r', done) && p in r
    ensures SplittingEnabled(r'[p].target.split) ==> Splits(r, images, p)
    ensures SplittingEnabled(Seed(images, r[p])) ==> SplittingEnabled(r'[p].target.split)
  {
    TargetSplits(r, images, p);
    SplitsFromParent(r, images, p);
  }

  /** Follows the ancestry of a process to the root, or to the first ancestor that is being split. */
  method AncestorSplits(ghost r: Registry, ghost images: ImageSet, r': Registry, ghost done: set<Pid>, p: Pid)
    returns (split: bool)
    requires Propagating(r, images, r', done)
    requires p in r && !SplittingEnabled(r'[p].target.split) && WalkEnds(r, images, p)
    ensures split <==> Splits(r, images, p)
  {
    ghost var n: nat :| WalkEndsAt(r, images, p, n);
    var current := p;
    while true
      invariant current in r && !SplittingEnabled(r'[current].target.split)
      invariant Splits(r, images, current) == Splits(r, images, p)
      invariant WalkEndsAt(r, images, current, n)
      decreases n
    {
      SplitsFromParent(r, images, current);
      PropagatingSplits(r, images, r', done, current);
      var parent := ParentOf(r', current);
      assert parent == ParentOf(r, current);
      if parent == None {
        return false;
      }
      PropagatingSplits(r, images, r', done, parent.value);
      if SplittingEnabled(r'[parent.value].target.split) {
        return true;
      }
      current := parent.value;
      n := n - 1;
    }
  }

  /** A walk that is not known to end goes on for ever: wherever it gets to, there is one more ancestor
      and none that is being split, no matter which processes have been visited. */
  lemma EndlessWalk(r: Registry, images: ImageSet, r': Registry, done: set<Pid>, p: Pid, n: nat)
    requires Propagating(r, images, r', done) && p in r && !WalkEnds(r, images, p)
    ensures NthAncestor(r', p, n).Some? && !SplittingEnabled(r'[NthAncestor(r', p, n).value].target.split)
  {
    NthAncestorSameParents(r, r', p, n);
    assert !WalkEndsAt(r, images, p, n);
    var a := NthAncestor(r, p, n).value;
    PropagatingSplits(r, images, r', done, a);
    if Splits(r, images, a) {
      var m: nat :| SeededAt(r, images, a, m);
      NthAncestorAdds(r, p, n, m);
      assert WalkEndsAt(r, images, p, n + m);
    }
  }

  /** One entry has its final target, and the firewall follows its change of firewall state. */
  ghost predicate Finalized(r: Registry, blocked: BlockList, p: Pid, r': Registry, blocked': BlockList)
    requires p in r
  {
    var target := WithFirewallState(r[p].settings, r[p].target.split);
    && r' == r[p := r[p].(target := target)]
    && forall image :: RefCount(blocked', image)
                       == RefCount(blocked, image) + Weight(r[p], target, image) - Weight(r[p], r[p].settings, image)
  }

  lemma RegisteredCounts(list: BlockList, image: ImageName, addresses: TunnelAddresses)
    ensures forall other :: RefCount(Registered(list, image, addresses), other)
                            == RefCount(list, other) + if other == image then 1 else 0
  {
    forall other {
      RegisteredCount(list, image, addresses, other);
    }
  }

  lemma UnregisteredCounts(list: BlockList, image: ImageName)
    requires WellFormed(list) && IndexOf(list, image) < |list|
    ensures forall other :: RefCount(Unregistered(list, image), other)
                            == RefCount(list, other) - if other == image then 1 else 0
  {
    forall other {
      UnregisteredCount(list, image, other);
    }
  }

  /** In the middle of a synchronization that set out from registry `r` and list `blocked`: the
      firewall has followed the processes in `done` to their targets. */
  ghost predicate MidSync(r: Registry, images: ImageSet, blocked: BlockList,
                          r': Registry, blocked': BlockList, done: set<Pid>) {
    && Propagating(r, images, r', done)
    && forall image :: RefCount(blocked', image) - MixedUsers(r', done, image)
                       == RefCount(blocked, image) - Users(r, image)
  }

  lemma PropagatingStep(r: Registry, images: ImageSet, r': Registry, done: set<Pid>, p: Pid)
    requires Propagating(r, images, r', done) && p in r
    ensures var target := TargetSettings(r, images, p);
            Propagating(r, images, r'[p := r'[p].(target := target)], done + {p})
  {
  }

  lemma MidSyncStep(r: Registry, images: ImageSet, blocked: BlockList,
                    r0: Registry, r1: Registry, blocked1: BlockList, r2: Registry, blocked2: BlockList,
                    done: set<Pid>, p: Pid)
    requires MidSync(r, images, blocked, r0, blocked1, done) && p in r && p !in done
    requires p in r1 && r1 == r0[p := r1[p]] && SameButTargets(r, r1) && r1[p].target.split == Target(r, images, p)
    requires Finalized(r1, blocked1, p, r2, blocked2)
    ensures MidSync(r, images, blocked, r2, blocked2, done + {p})
  {
    hide RefCount, MixedUsers, Users, Target, Seed;
    var target := TargetSettings(r, images, p);
    assert r1[p] == r0[p].(target := r1[p].target);
    assert r2 == r0[p := r0[p].(target := target)];
    PropagatingStep(r, images, r0, done, p);
    forall image
      ensures RefCount(blocked2, image) - MixedUsers(r2, done + {p}, image)
              == RefCount(blocked, image) - Users(r, image)
    {
      MixedUsersStep(r0, done, p, target, image);
    }
  }

  lemma MidSyncBegins(r: Registry, images: ImageSet, r': Registry, blocked: BlockList)
    requires Seeded(r, images, r', r'.Keys)
    ensures MidSync(r, images, blocked, r', blocked, r'.Keys - r'.Keys)
  {
    hide RefCount;
    assert r'.Keys - r'.Keys == {};
    forall image
      ensures MixedUsers(r', {}, image) == Users(r, image)
    {
      assert MixedSet(r', {}, image) == UserSet(r, image);
    }
  }

  /** What RealizeAnnounceSettingsChange makes of an entry, and the event that it emits. */
  function Realized(e: Entry): Entry {
    Entry(e.parent, e.image, e.target, e.target, e.settings)
  }

  function Pending(p: Pid, e: Entry): Log {
    var a := Announcement(p, e.image, e.settings.split, e.target.split);
    if a.Some? then [a.value] else []
  }

  function RealizedAll(r: Registry): Registry {
    map p | p in r :: Realized(r[p])
  }

  /** A registry on its way from `r` to `r'`, with the processes in `todo` left to visit. */
  ghost function Midway(r: Registry, r': Registry, todo: set<Pid>): Registry
    requires r.Keys == r'.Keys
  {
    map p | p in r :: if p in todo then r[p] else r'[p]
  }

  lemma MidwayStep(r: Registry, r': Registry, todo: set<Pid>, p: Pid)
    requires r.Keys == r'.Keys && todo <= r.Keys && p in todo
    ensures p in Midway(r, r', todo) && Midway(r, r', todo)[p] == r[p]
    ensures Midway(r, r', todo)[p := r'[p]] == Midway(r, r', todo - {p})
  {
  }

  lemma NothingDone(r: Registry, r': Registry)
    requires r.Keys == r'.Keys
    ensures Announces([], r, r', {})
  {
  }

  lemma MidwayEnds(r: Registry, r': Registry)
    requires r.Keys == r'.Keys
    ensures Midway(r, r', r.Keys) == r && Midway(r, r', {}) == r'
  {
  }

  /** Pending targets do not matter to announcements. */
  lemma AnnouncesSameSettings(events: Log, r: Registry, r0: Registry, r': Registry)
    requires SameButTargets(r, r0) && r0.Keys == r'.Keys && Announces(events, r0, r', r0.Keys)
    ensures Announces(events, r, r', r.Keys)
  {
    assert forall p :: p in r ==> AnnouncementOf(r, r', p) == AnnouncementOf(r0, r', p);
  }

  lemma MidSyncEnds(r: Registry, images: ImageSet, blocked: BlockList, r': Registry, blocked': BlockList)
    requires MidSync(r, images, blocked, r', blocked', r.Keys)
    ensures RealizedAll(r') == Synced(r, images)
    ensures forall image :: RefCount(blocked', image) - Users(RealizedAll(r'), image)
                            == RefCount(blocked, image) - Users(r, image)
  {
    hide RefCount;
    forall image
      ensures Users(RealizedAll(r'), image) == MixedUsers(r', r.Keys, image)
    {
      MixedUsersEnds(r', RealizedAll(r'), image);
    }
  }

  /** Everything that a successful synchronization has done adds up to the step it is to be. */
  lemma SyncDone(s: State, s': State, propagated: Registry, force: bool, from: nat)
    requires HasInstance(s) && s' == s.(registry := s'.registry, fw := s'.fw, log := s'.log)
    requires s'.fw.addresses == s.fw.addresses && Committed(s'.fw)
    requires SameButTargets(s.registry, propagated)
    requires MidSync(s.registry, Configuration(s), s.fw.blocked, propagated, s'.fw.blocked, s.registry.Keys)
    requires s'.registry == RealizedAll(propagated)
    requires AnnouncedFrom(s.log, s'.log, propagated, s'.registry, if force then 2 else 0, from)
    ensures SyncStep(s, s', true, force)
  {
    hide Announces, Complains, MidSync, RefCount, Users, Target, Committed;
    MidSyncEnds(s.registry, Configuration(s), s.fw.blocked, propagated, s'.fw.blocked);
    AnnouncesSameSettings(s'.log[from..], s.registry, propagated, s'.registry);
    assert AnnouncedFrom(s.log, s'.log, s.registry, s'.registry, if force then 2 else 0, from);
  }

  /** Synchronization does not look at the driver's state. */
  lemma SyncStepPhase(s: State, s': State, ok: bool, force: bool, phase: Phase)
    requires HasInstance(s) && SyncStep(s, s', ok, force)
    ensures SyncStep(s.(phase := phase), s'.(phase := phase), ok, force)
  {
    hide AnnouncedFrom, Complains, Synced, Surplus, Committed;
  }

  /** The instance in use is replaced by a prepared one, and the loser of the two is torn down. */
  ghost predicate ConfigurationReplaced(imageset: nat, s: State, s': State, ok: bool)
    requires HasInstance(s) && imageset in s.pool.live
  {
    var s1 := s.(instance := Some(imageset));
    && s'.instance == (if ok then Some(imageset) else s.instance)
    && s'.pool == (if ok then s.pool.TearDown(s.instance.value) else s.pool.TearDown(imageset))
    && var s2 := s'.(pool := s.pool, instance := Some(imageset));
       match s.phase
       case Ready => if VpnActive(s.ips) then EngageStep(s1, s.ips, s2, ok) else ok && s2 == s1
       case Engaged => SyncStep(s1, s2, ok, true)
       case _ => false
  }

  /** Creating an image set from the buffer and putting it to use sets the configuration. */
  lemma ConfigurationSet(fold: CaseFolding, b: W.Buffer, s: State, s': State, ok: bool)
    requires HasInstance(s) && W.WellFormed(W.CONFIGURATION, b) && W.NumEntries(b) > 0
    requires var images := ImagesOf(fold, b, W.NumEntries(b));
             ConfigurationReplaced(s.pool.created, s.(pool := s.pool.Create(images)), s', ok)
    ensures SetConfigurationStep(fold, b, s, s', ok)
  {
    hide EngageStep, SyncStep, ImagesOf;
  }

  lemma ConfigurationNotSet(fold: CaseFolding, b: W.Buffer, s: State, s': State)
    requires HasInstance(s)
    requires s' == s || s' == s.(pool := s.pool.Create([]).TearDown(s.pool.created))
    ensures SetConfigurationStep(fold, b, s, s', false)
  {
    hide ReplaceConfigurationStep, ImagesOf;
  }

  lemma LoadedNone(fold: CaseFolding, b: W.Buffer)
    requires W.WellFormed(W.PROCESSES, b)
    ensures Loaded(fold, b, 0, map[])
  {
  }

  /** One more process, if its id is new. */
  lemma LoadedStep(fold: CaseFolding, b: W.Buffer, i: nat, r: Registry)
    requires W.WellFormed(W.PROCESSES, b) && i < W.NumEntries(b) && Loaded(fold, b, i, r)
    ensures W.HasEntry(W.PROCESSES, b, i)
    ensures PidAt(b, i) !in r ==> Loaded(fold, b, i + 1, r[PidAt(b, i) := DiscoveredEntry(fold, b, i)])
  {
    hide W.Word, W.StringOf, W.EntryAt, W.StringInside, W.HasEntry, W.WellFormed, DiscoveredEntry;
    EntriesThere(b);
    if PidAt(b, i) !in r {
      var r' := r[PidAt(b, i) := DiscoveredEntry(fold, b, i)];
      forall p | p in r'
        ensures exists j :: 0 <= j < i + 1 && PidAt(b, j) == p
      {
        if p != PidAt(b, i) {
          var j :| 0 <= j < i && PidAt(b, j) == p;
          assert 0 <= j < i + 1;
        }
      }
    }
  }

  /** Whatever has been done so far, a process that is still to lose its firewall state is registered. */
  lemma StillRegistered(r: Registry, images: ImageSet, blocked: BlockList, r': Registry, blocked': BlockList,
                        done: set<Pid>, p: Pid)
    requires MidSync(r, images, blocked, r', blocked', done) && Covered(blocked, r)
    requires p in r && p !in done && r[p].settings.hasFirewallState
    ensures IndexOf(blocked', r[p].image) < |blocked'|
  {
    hide IndexOf, Target, Seed;
    var image := r[p].image;
    assert p in MixedSet(r', done, image);
    assert RefCount(blocked, image) >= Users(r, image);
    assert RefCount(blocked', image) >= 1;
  }

  lemma NextIsNew(fold: CaseFolding, b: W.Buffer, i: nat, r: Registry)
    requires W.WellFormed(W.PROCESSES, b) && i < W.NumEntries(b) && Loaded(fold, b, i, r) && DistinctPids(b)
    ensures W.HasEntry(W.PROCESSES, b, i) && PidAt(b, i) !in r
  {
    hide W.Word, W.StringOf, W.EntryAt, W.StringInside, W.HasEntry, W.WellFormed, DiscoveredEntry;
    EntriesThere(b);
  }

  class Driver {
    /** Case folding of names, as the system's character tables define it. */
    const fold: CaseFolding

    var phase: Phase
    var ips: IpAddresses
    var registry: Registry
    var log: Log
    var fw: Firewall?
    var subsystems: set<Subsystem>

    // Image sets, and the one that holds the configuration.
    var pool: ImagePool
    var instance: Option<nat>

    /** Registrations in the firewall that departed processes have left behind. */
    ghost var leaked: multiset<ImageName>

    const meter: Meter

    ghost function Repr(): set<object>
      reads this
    {
      {this} + if fw == null then {} else {fw, fw.wfp, fw.app}
    }

    ghost predicate Valid()
      reads this, Repr()
    {
      && (fw != null ==> fw.Idle() && fw.wfp.meter == meter)
      && (FirewallContext in subsystems <==> fw != null)
    }

    /** The firewall and a configuration are there to work with. */
    ghost predicate Operational()
      reads this, Repr()
    {
      Valid() && fw != null && HasInstance(View())
    }

    /** The committed state. */
    ghost function View(): State
      reads this, Repr()
    {
      State(phase, ips, pool, instance, registry, if fw == null then FW_OFF else fw.View(), log, leaked, subsystems)
    }

    /** Error messages that are due but have not been logged, besides those about arrivals. */
    ghost function Untold(): int
      reads this`log, meter
    {
      meter.due - Complaints(log)
    }

    /** Sends error messages to user mode. */
    method Report(errors: nat)
      modifies this`log
      ensures log == old(log) + ErrorMessages(errors)
      ensures Complaints(log) == Complaints(old(log)) + errors
    {
      ComplaintsMore(log, errors);
      log := log + ErrorMessages(errors);
    }

    constructor (fold: CaseFolding)
      ensures Valid() && View() == INITIAL_STATE && this.fold == fold
      ensures fresh(Repr()) && fresh(meter) && meter.faults == 0
    {
      this.fold := fold;
      phase, ips, registry, log := Started, NO_ADDRESSES, map[], [];
      fw, subsystems := null, {};
      pool, instance := ImagePool(map[], 0, 0), None;
      leaked := multiset{};
      meter := new Meter();
    }

    // ----- Traversals of the process registry, in any order -----

    /** Callback: the entry's target is what its seed says. */
    method UpdateTargetSplitSetting(p: Pid, images: ImageSet)
      requires p in registry
      modifies this`registry
      ensures registry == old(registry)[p := old(registry)[p].(target := old(registry)[p].target.(
                                            split := Seed(images, old(registry)[p])))]
    {
      var entry := registry[p];
      var split := Off;
      var flags := Lookup(images, entry.image);
      if flags.Some? {
        split := if IsHybrid(flags.value) then HybridByConfig else OnByConfig;
      } else if entry.parent == NO_PROCESS && entry.settings.split == OnByInheritance {
        split := OnByInheritance;
      }
      registry := registry[p := entry.(target := entry.target.(split := split))];
    }

    method UpdateTargetSplitSettings(images: ImageSet)
      modifies this`registry
      ensures Seeded(old(registry), images, registry, registry.Keys)
    {
      var todo := registry.Keys;
      while todo != {}
        invariant todo <= registry.Keys
        invariant Seeded(old(registry), images, registry, registry.Keys - todo)
      {
        var p :| p in todo;
        UpdateTargetSplitSetting(p, images);
        todo := todo - {p};
      }
    }

    // ----- Inside a firewall transaction -----

    ghost predicate InTransaction()
      reads this, Repr()
    {
      fw != null && fw.Valid() && fw.transactionActive && fw.wfp.meter == meter
    }

    /** Settles the firewall state that goes with the target, and tells the firewall if need be. */
    method ApplyFinalizeTargetSettings(p: Pid) returns (ok: bool)
      requires InTransaction() && fw.Clean()
      requires p in registry && StateOnlyIfSplitting(registry)
      modifies this`registry, fw.wfp`filters, meter`faults, fw.app
      ensures InTransaction() && fw.View() == old(fw.View())
      ensures !ok ==> SameButTargets(old(registry), registry)
      ensures ok ==> fw.Clean() && Finalized(old(registry), old(fw.app.blocked), p, registry, fw.app.blocked)
      ensures meter.faults >= old(meter.faults)
                               + if ok || (old(registry)[p].settings.hasFirewallState
                                           && IndexOf(old(fw.app.blocked), old(registry)[p].image)
                                              == |old(fw.app.blocked)|) then 0 else 1
    {
      hide WellFormed, Mirrors, AllBoundTo, IndexOf, UndoAll, DetermineSplittingMode, ActiveTunnel;
      hide Registered, Unregistered;
      var entry := registry[p];
      var current, target := entry.settings, entry.target.split;
      var hasFirewallState;
      ok := true;
      if !SplittingEnabled(current.split) && !HybridEnabled(current.split) {
        assert !current.hasFirewallState;
        if SplittingEnabled(target) {
          ok := fw.RegisterAppBecomingSplit(entry.image);
          RegisteredCounts(old(fw.app.blocked), entry.image, ActiveTunnel(fw.ips));
          hasFirewallState := true;
        } else {
          hasFirewallState := false;
        }
      } else if HybridEnabled(current.split) {
        assert !current.hasFirewallState;
        if SplittingEnabled(target) {
          ok := fw.RegisterAppBecomingSplit(entry.image);
          RegisteredCounts(old(fw.app.blocked), entry.image, ActiveTunnel(fw.ips));
          hasFirewallState := true;
        } else {
          hasFirewallState := false;
        }
      } else if SplittingEnabled(target) {
        hasFirewallState := current.hasFirewallState;
      } else {
        if current.hasFirewallState {
          ok := fw.RegisterAppBecomingUnsplit(entry.image);
          if ok {
            UnregisteredCounts(old(fw.app.blocked), entry.image);
          }
        }
        hasFirewallState := false;
      }
      if ok {
        registry := registry[p := entry.(target := Settings(target, hasFirewallState))];
      }
    }

    /** Callback: settles the target of an entry, given that of its ancestors. */
    method PropagateApplyTargetSettings(p: Pid, ghost r: Registry, ghost images: ImageSet, ghost blocked: BlockList,
                                        ghost done: set<Pid>)
      returns (ok: bool)
      requires InTransaction() && fw.Clean()
      requires WalksEnd(r, images) && StateOnlyIfSplitting(r) && p in registry && p !in done
      requires MidSync(r, images, blocked, registry, fw.app.blocked, done)
      modifies this`registry, fw.wfp`filters, meter`faults, fw.app
      ensures InTransaction() && fw.View() == old(fw.View())
      ensures !ok ==> SameButTargets(r, registry)
      ensures ok ==> fw.Clean() && MidSync(r, images, blocked, registry, fw.app.blocked, done + {p})
      ensures meter.faults >= old(meter.faults) + if ok || !Covered(blocked, r) then 0 else 1
    {
      hide WellFormed, Mirrors, AllBoundTo, IndexOf, UndoAll, MixedUsers, RefCount, WalkEnds, Covered, Seed;
      hide Firewall.Valid;
      ghost var registry0 := registry;
      if !SplittingEnabled(registry[p].target.split) {
        var inherits := AncestorSplits(r, images, registry, done, p);
        if inherits {
          registry := registry[p := registry[p].(target := registry[p].target.(split := OnByInheritance))];
        }
      }
      PropagatingSplits(r, images, registry0, done, p);
      assert registry[p].target.split == Target(r, images, p);
      ghost var registry1, blocked1 := registry, fw.app.blocked;
      assert SameButTargets(r, registry1);
      if Covered(blocked, r) && r[p].settings.hasFirewallState {
        StillRegistered(r, images, blocked, registry0, blocked1, done, p);
      }
      ok := ApplyFinalizeTargetSettings(p);
      if ok {
        MidSyncStep(r, images, blocked, registry0, registry1, blocked1, registry, fw.app.blocked, done, p);
      }
    }

    method PropagateApplyAllTargetSettings(ghost r: Registry, ghost images: ImageSet) returns (ok: bool)
      requires InTransaction() && fw.Clean()
      requires WalksEnd(r, images) && StateOnlyIfSplitting(r)
      requires Seeded(r, images, registry, registry.Keys)
      modifies this`registry, fw.wfp`filters, meter`faults, fw.app
      ensures InTransaction() && fw.View() == old(fw.View())
      ensures SameButTargets(r, registry)
      ensures ok ==> fw.Clean() && MidSync(r, images, old(fw.app.blocked), registry, fw.app.blocked, r.Keys)
      ensures meter.faults >= old(meter.faults) + if ok || !Covered(old(fw.app.blocked), r) then 0 else 1
    {
      hide WellFormed, Mirrors, AllBoundTo, IndexOf, UndoAll, MixedUsers, Users, RefCount, WalksEnd, Target, Seed;
      hide Covered;
      MidSyncBegins(r, images, registry, fw.app.blocked);
      var todo := registry.Keys;
      while todo != {}
        invariant todo <= registry.Keys
        invariant InTransaction() && fw.View() == old(fw.View()) && fw.Clean()
        invariant meter.faults >= old(meter.faults)
        invariant MidSync(r, images, old(fw.app.blocked), registry, fw.app.blocked, registry.Keys - todo)
      {
        var p :| p in todo;
        ok := PropagateApplyTargetSettings(p, r, images, old(fw.app.blocked), registry.Keys - todo);
        if !ok {
          return;
        }
        assert registry.Keys - todo + {p} == registry.Keys - (todo - {p});
        todo := todo - {p};
      }
      ok := true;
      assert registry.Keys - {} == r.Keys;
    }

    // ----- Realizing and announcing settings -----

    /** Callback: the target becomes the current settings, and an event goes out if splitting changes. */
    method RealizeAnnounceSettingsChange(p: Pid)
      requires p in registry
      modifies this`registry, this`log
      ensures registry == old(registry)[p := Realized(old(registry)[p])]
      ensures log == old(log) + Pending(p, old(registry)[p])
      ensures Complaints(log) == Complaints(old(log))
    {
      hide Complaints;
      var entry := registry[p];
      entry := entry.(previous := entry.settings);
      entry := entry.(settings := entry.target);
      registry := registry[p := entry];
      if SplittingEnabled(entry.settings.split) {
        if !SplittingEnabled(entry.previous.split) {
          ComplaintsSnoc(log, StartSplitting(p, ByConfig, entry.image));
          log := log + [StartSplitting(p, ByConfig, entry.image)];
        }
      } else {
        if SplittingEnabled(entry.previous.split) {
          ComplaintsSnoc(log, StopSplitting(p, ByConfig, entry.image));
          log := log + [StopSplitting(p, ByConfig, entry.image)];
        }
      }
    }

    method RealizeAnnounceSettingsChanges()
      modifies this`registry, this`log
      ensures registry == RealizedAll(old(registry))
      ensures old(log) <= log
      ensures Announces(log[|old(log)|..], old(registry), registry, registry.Keys)
      ensures Complaints(log) == Complaints(old(log))
    {
      hide Announces, Midway, Complaints;
      ghost var r, r' := registry, RealizedAll(registry);
      ghost var events: Log := [];
      NothingDone(r, r');
      MidwayEnds(r, r');
      var todo := registry.Keys;
      assert r.Keys - todo == {};
      while todo != {}
        invariant todo <= r.Keys && registry == Midway(r, r', todo)
        invariant log == old(log) + events && Announces(events, r, r', r.Keys - todo)
        invariant Complaints(log) == Complaints(old(log))
      {
        var p :| p in todo;
        AnnouncesStep(events, r, r', r.Keys - todo, p);
        MidwayStep(r, r', todo, p);
        assert r.Keys - todo + {p} == r.Keys - (todo - {p});
        RealizeAnnounceSettingsChange(p);
        events := events + Pending(p, r[p]);
        todo := todo - {p};
      }
      assert r.Keys - {} == r.Keys;
      assert log[|old(log)|..] == events;
    }

    /** Callback: clears splitting, then realizes and announces that. */
    method ClearRealizeAnnounceSettingsChange(p: Pid)
      requires p in registry
      modifies this`registry, this`log
      ensures registry == old(registry)[p := Realized(old(registry)[p].(target := SETTINGS_OFF))]
      ensures log == old(log) + Pending(p, old(registry)[p].(target := SETTINGS_OFF))
      ensures Complaints(log) == Complaints(old(log))
    {
      hide Complaints;
      var entry := registry[p];
      registry := registry[p := entry.(target := entry.target.(split := Off, hasFirewallState := false))];
      RealizeAnnounceSettingsChange(p);
    }

    method ClearRealizeAnnounceSettingsChanges()
      modifies this`registry, this`log
      ensures registry == Cleared(old(registry))
      ensures old(log) <= log
      ensures Announces(log[|old(log)|..], old(registry), registry, registry.Keys)
      ensures Complaints(log) == Complaints(old(log))
    {
      hide Announces, Midway, Complaints;
      ghost var r, r' := registry, Cleared(registry);
      ghost var events: Log := [];
      NothingDone(r, r');
      MidwayEnds(r, r');
      var todo := registry.Keys;
      assert r.Keys - todo == {};
      while todo != {}
        invariant todo <= r.Keys && registry == Midway(r, r', todo)
        invariant log == old(log) + events && Announces(events, r, r', r.Keys - todo)
        invariant Complaints(log) == Complaints(old(log))
      {
        var p :| p in todo;
        AnnouncesStep(events, r, r', r.Keys - todo, p);
        MidwayStep(r, r', todo, p);
        assert r.Keys - todo + {p} == r.Keys - (todo - {p});
        ClearRealizeAnnounceSettingsChange(p);
        events := events + Pending(p, r[p].(target := SETTINGS_OFF));
        todo := todo - {p};
      }
      assert r.Keys - {} == r.Keys;
      assert log[|old(log)|..] == events;
    }

    // ----- Synchronization -----

    /** Commits the transaction if it is complete, and aborts it if that fails or there is nothing to commit. */
    method FinishTransaction(complete: bool, forceAleReauthorization: bool := false) returns (ok: bool)
      requires InTransaction() && fw.wfp.savedDummies == fw.wfp.dummies && (complete ==> fw.Clean())
      modifies this`log, fw, fw.wfp, fw.app, meter
      ensures fw.Idle() && (ok ==> complete)
      ensures fw.View() == if ok then old(fw.View()).(blocked := old(fw.app.blocked)) else old(fw.View())
      ensures Complains(old(log), log, if !ok then 1 else if forceAleReauthorization then 2 else 0)
      ensures ok ==> fw.wfp.reauthorizations == old(fw.wfp.reauthorizations) + if forceAleReauthorization then 1 else 0
      ensures meter.faults >= old(meter.faults) + if ok || !complete then 0 else 1
      ensures Untold() == old(Untold())
    {
      hide WellFormed, Mirrors, AllBoundTo, UndoAll, Complains, ErrorMessages, Complaints, DetermineSplittingMode;
      ok := complete;
      ComplainsFirst(log, 0, 1);
      if ok {
        var errors;
        ok, errors := fw.TransactionCommit(forceAleReauthorization);
        ComplainsFirst(log, errors, if !ok then 1 else if forceAleReauthorization then 2 else 0);
        Report(errors);
      }
      if !ok {
        fw.TransactionAbort();
      }
    }

    /** The firewall's part of a synchronization, given the seeds: follows all processes to their final
        targets in one transaction. */
    method PropagateInTransaction(ghost r: Registry, ghost images: ImageSet, forceAleReauthorization: bool)
      returns (ok: bool)
      requires Operational() && WalksEnd(r, images) && StateOnlyIfSplitting(r)
      requires Seeded(r, images, registry, registry.Keys)
      modifies this`registry, this`log, fw, fw.wfp, fw.app, meter
      ensures Operational() && SameButTargets(r, registry)
      ensures Complains(old(log), log, if !ok then 1 else if forceAleReauthorization then 2 else 0)
      ensures fw.View().addresses == old(fw.View()).addresses
      ensures if ok then MidSync(r, images, old(fw.View()).blocked, registry, fw.View().blocked, r.Keys)
              else fw.View() == old(fw.View())
      ensures ok ==> fw.wfp.reauthorizations == old(fw.wfp.reauthorizations) + if forceAleReauthorization then 1 else 0
      ensures meter.faults >= old(meter.faults)
                          + if ok || old(fw.View()).addresses.None? || !Covered(old(fw.View()).blocked, r) then 0
                            else 1
      ensures Untold() == old(Untold())
    {
      hide WellFormed, Mirrors, AllBoundTo, UndoAll, MidSync, WalksEnd, Propagating, Complains, ErrorMessages;
      hide SameButTargets, StateOnlyIfSplitting, Seeded, Covered, Complaints, DetermineSplittingMode, Committed;
      SeededTargets(r, images, registry);
      var errors;
      ok, errors := fw.TransactionBegin();
      ComplainsFirst(log, errors, 1);
      Report(errors);
      if !ok {
        return;
      }
      ok := PropagateApplyAllTargetSettings(r, images);
      ok := FinishTransaction(ok, forceAleReauthorization);
    }

    /** Makes the settings of all processes reflect the configuration, or leaves them alone. */
    method SyncProcessRegistry(forceAleReauthorization: bool := false) returns (ok: bool)
      requires Operational()
      requires WalksEnd(registry, Configuration(View())) && StateOnlyIfSplitting(registry)
      modifies this`registry, this`log, fw, fw.wfp, fw.app, meter
      ensures Operational() && SyncStep(old(View()), View(), ok, forceAleReauthorization)
      ensures ok ==> fw.wfp.reauthorizations == old(fw.wfp.reauthorizations) + if forceAleReauthorization then 1 else 0
      ensures meter.faults >= old(meter.faults)
                          + if ok || old(fw.View()).addresses.None?
                               || !Covered(old(fw.View()).blocked, old(registry)) then 0 else 1
      ensures Untold() == old(Untold())
    {
      hide WellFormed, Mirrors, AllBoundTo, UndoAll, MidSync, Announces, Synced, Surplus, Committed, WalksEnd, Seeded;
      hide Announced, Complains, AnnouncedFrom, Covered, Complaints;
      ghost var r := registry;
      var images := pool.live[instance.value];
      UpdateTargetSplitSettings(images);
      ok := PropagateInTransaction(r, images, forceAleReauthorization);
      if !ok {
        return;
      }
      ghost var propagated, complained := registry, log;
      RealizeAnnounceSettingsChanges();
      assert registry.Keys == propagated.Keys;
      AnnouncedAfter(old(log), complained, log, propagated, registry, if forceAleReauthorization then 2 else 0);
      fw.ViewCommitted();
      SyncDone(old(View()), View(), propagated, forceAleReauthorization, |complained|);
    }

    // ----- Entering and leaving the engaged state -----

    method EnterEngagedState(newIps: IpAddresses) returns (ok: bool)
      requires Operational()
      requires WalksEnd(registry, Configuration(View())) && StateOnlyIfSplitting(registry)
      modifies this`registry, this`log, this`phase, fw, fw.wfp, fw.app, meter
      ensures Operational() && EngageStep(old(View()), newIps, View(), ok)
      ensures meter.faults >= old(meter.faults)
                          + if ok || !Engageable(old(fw.View()), old(registry), newIps) then 0 else 1
      ensures !ok && fw.View() != old(fw.View()) && Engageable(old(fw.View()), old(registry), newIps) ==>
                meter.faults >= old(meter.faults) + 2
      ensures Untold() == old(Untold())
    {
      hide WalksEnd, DetermineSplittingMode, Committed, Synced, Surplus, Announced, Covered, Firewall.Idle, Complaints;
      var errors;
      ok, errors := fw.EnableSplitting(newIps);
      Report(errors);
      if !ok {
        return;
      }
      assert log == old(log);
      ghost var enabled := View();
      ok := SyncProcessRegistry();
      if !ok {
        var disabled;
        disabled, errors := fw.DisableSplitting();
        ComplainsOn(old(log), log, 1, errors, 1);
        Report(errors);
        return;
      }
      SyncStepPhase(enabled, View(), true, false, Engaged);
      phase := Engaged;
    }

    method LeaveEngagedState() returns (ok: bool)
      requires Operational()
      modifies this`registry, this`log, this`phase, this`leaked, fw, fw.wfp, fw.app, meter
      ensures Operational() && LeaveStep(old(View()), View(), ok)
      ensures meter.faults >= old(meter.faults) + if ok || old(fw.View()).addresses.None? then 0 else 1
      ensures Untold() == old(Untold())
    {
      hide Announces, Complaints;
      var errors;
      ok, errors := fw.DisableSplitting();
      Report(errors);
      if !ok {
        return;
      }
      assert log == old(log);
      leaked := multiset{};
      ClearRealizeAnnounceSettingsChanges();
      assert registry.Keys == old(registry).Keys;
      assert log[..|old(log)|] == old(log);
      assert AnnouncedFrom(old(log), log, old(registry), registry, 0, |old(log)|);
      phase := Ready;
    }

    // ----- Tunnel addresses -----

    method RegisterIpAddressesAtReady(newIps: IpAddresses) returns (ok: bool)
      requires Operational() && phase == Ready
      requires Completes(fold, Request.RegisterIpAddresses(newIps), View()) && StateOnlyIfSplitting(registry)
      modifies this, fw, fw.wfp, fw.app, meter
      ensures Operational() && Repr() == old(Repr())
      ensures RegisterIpAddressesStep(newIps, old(View()), View(), ok)
      ensures meter.faults >= old(meter.faults) + if ok || !Registrable(old(View()), newIps) then 0 else 1
      ensures Untold() == old(Untold())
    {
      hide WalksEnd, DetermineSplittingMode, SyncStep, Engageable, Complaints;
      if pool.live[instance.value] == [] {
        ips := newIps;
        return true;
      }
      if !VpnActive(newIps) {
        ips := newIps;
        return true;
      }
      ok := EnterEngagedState(newIps);
      if !ok {
        return;
      }
      ips := newIps;
      assert View().(ips := old(ips)).ips == old(ips);
    }

    method RegisterIpAddressesAtEngaged(newIps: IpAddresses) returns (ok: bool)
      requires Operational() && phase == Engaged && fw.View().addresses.Some?
      modifies this, fw, fw.wfp, fw.app, meter
      ensures Operational() && Repr() == old(Repr())
      ensures RegisterIpAddressesStep(newIps, old(View()), View(), ok)
      ensures meter.faults >= old(meter.faults) + if ok || !Registrable(old(View()), newIps) then 0 else 1
      ensures Untold() == old(Untold())
    {
      hide DetermineSplittingMode, Announced, Complaints;
      if !VpnActive(newIps) {
        ok := LeaveEngagedState();
        if !ok {
          return;
        }
        ips := newIps;
        return;
      }
      var errors;
      ok, errors := fw.RegisterUpdatedIpAddresses(newIps);
      Report(errors);
      if !ok {
        return;
      }
      ips := newIps;
    }

    method RegisterIpAddresses(newIps: IpAddresses) returns (ok: bool)
      requires Operational() && (phase == Ready || phase == Engaged)
      requires phase == Engaged ==> fw.View().addresses.Some?
      requires Completes(fold, Request.RegisterIpAddresses(newIps), View()) && StateOnlyIfSplitting(registry)
      modifies this, fw, fw.wfp, fw.app, meter
      ensures Operational() && Repr() == old(Repr())
      ensures RegisterIpAddressesStep(newIps, old(View()), View(), ok)
      ensures meter.faults >= old(meter.faults) + if ok || !Registrable(old(View()), newIps) then 0 else 1
      ensures Untold() == old(Untold())
    {
      hide Complaints;
      if phase == Ready {
        ok := RegisterIpAddressesAtReady(newIps);
      } else {
        ok := RegisterIpAddressesAtEngaged(newIps);
      }
    }

    // ----- Configurations -----

    /** Validates a configuration and repackages it as a new image set. The buffer is mapped at
        `address`. Adding an entry may fail for lack of memory. */
    method SetConfigurationPrepare(address: nat, b: W.Buffer) returns (id: Option<nat>)
      requires address < W.SIZE_T_LIMIT && |b| < W.SIZE_T_LIMIT
      requires PoolAccounted(pool)
      modifies this`pool, meter`faults
      ensures id.None? ==> pool == old(pool) || pool == old(pool).Create([]).TearDown(old(pool).created)
      ensures id.Some? ==> && id.value == old(pool).created
                           && W.WellFormed(W.CONFIGURATION, b) && W.NumEntries(b) > 0
                           && pool == old(pool).Create(ImagesOf(fold, b, W.NumEntries(b)))
      ensures id.Some? ==> !Rejected(Request.SetConfiguration(b), address)
      ensures Rejected(Request.SetConfiguration(b), address) ==> pool == old(pool)
      ensures meter.faults >= old(meter.faults)
                              + if id.Some? || Rejected(Request.SetConfiguration(b), address) then 0 else 1
    {
      hide AddImage, ConfigurationEntry, PoolAccounted;
      var ok := W.ValidateUserBuffer(W.CONFIGURATION, address, b);
      if !ok || W.NumEntries(b) == 0 {
        return None;
      }
      ok := meter.Attempt();
      if !ok {
        return None;
      }
      var imageset := pool.created;
      pool := pool.Create([]);
      var i := 0;
      while i < W.NumEntries(b)
        invariant i <= W.NumEntries(b)
        invariant imageset == old(pool).created && meter.faults >= old(meter.faults)
        invariant pool == old(pool).Create(ImagesOf(fold, b, i))
      {
        ok := AddEntry(imageset, ConfigurationEntry(b, i));
        if !ok {
          PoolRoundTrip(old(pool), ImagesOf(fold, b, i));
          PoolRoundTrip(old(pool), []);
          pool := pool.TearDown(imageset);
          return None;
        }
        i := i + 1;
      }
      return Some(imageset);
    }

    /** registeredimage::AddEntry: names are compared without regard to case and stored in lower case. */
    method AddEntry(imageset: nat, e: RawEntry) returns (ok: bool)
      requires imageset in pool.live
      modifies this`pool, meter`faults
      ensures pool == if ok
                      then old(pool).(live := old(pool).live[imageset := AddImage(fold, old(pool).live[imageset], e)])
                      else old(pool)
      ensures meter.faults >= old(meter.faults) + if ok then 0 else 1
    {
      var images := pool.live[imageset];
      for i := 0 to |images|
        invariant forall j :: 0 <= j < i ==> fold.upper(images[j].name) != fold.upper(e.name)
      {
        if fold.upper(images[i].name) == fold.upper(e.name) {
          return true;
        }
      }
      ok := meter.Attempt();
      if ok {
        pool := pool.(live := pool.live[imageset := images + [ImageEntry(FoldName(fold, e.name), e.flags)]]);
      }
    }

    method RegisterConfigurationAtReady(imageset: nat) returns (ok: bool)
      requires Operational() && phase == Ready
      requires imageset in pool.live && Some(imageset) != instance
      requires VpnActive(ips) ==> WalksEnd(registry, pool.live[imageset])
      requires StateOnlyIfSplitting(registry)
      modifies this, fw, fw.wfp, fw.app, meter
      ensures Operational() && Repr() == old(Repr())
      ensures ConfigurationReplaced(imageset, old(View()), View(), ok)
      ensures meter.faults >= old(meter.faults)
                          + if ok || !Replaceable(old(phase), old(ips), old(fw.View()), old(registry)) then 0 else 1
      ensures Untold() == old(Untold())
    {
      hide WalksEnd, EngageStep, Engageable, Firewall.Idle, Firewall.View, Complaints;
      ghost var s := View();
      if !VpnActive(ips) {
        var oldConfiguration := instance.value;
        instance := Some(imageset);
        pool := pool.TearDown(oldConfiguration);
        return true;
      }
      var oldConfiguration := instance.value;
      instance := Some(imageset);
      ok := EnterEngagedState(ips);
      if !ok {
        instance := Some(oldConfiguration);
        pool := pool.TearDown(imageset);
        return;
      }
      pool := pool.TearDown(oldConfiguration);
    }

    method RegisterConfigurationAtEngaged(imageset: nat) returns (ok: bool)
      requires Operational() && phase == Engaged
      requires imageset in pool.live && Some(imageset) != instance
      requires WalksEnd(registry, pool.live[imageset]) && StateOnlyIfSplitting(registry)
      modifies this, fw, fw.wfp, fw.app, meter
      ensures Operational() && Repr() == old(Repr())
      ensures fw == old(fw) && (ok ==> fw.wfp.reauthorizations == old(fw.wfp.reauthorizations) + 1)
      ensures ConfigurationReplaced(imageset, old(View()), View(), ok)
      ensures meter.faults >= old(meter.faults)
                          + if ok || !Replaceable(old(phase), old(ips), old(fw.View()), old(registry)) then 0 else 1
      ensures Untold() == old(Untold())
    {
      hide WalksEnd, SyncStep, Covered, Complaints;
      var oldConfiguration := instance.value;
      instance := Some(imageset);
      ok := SyncProcessRegistry(true);
      if !ok {
        instance := Some(oldConfiguration);
        pool := pool.TearDown(imageset);
        return;
      }
      pool := pool.TearDown(oldConfiguration);
    }

    method RegisterConfiguration(imageset: nat) returns (ok: bool)
      requires Operational() && (phase == Ready || phase == Engaged)
      requires imageset in pool.live && Some(imageset) != instance
      requires phase == Engaged || VpnActive(ips) ==> WalksEnd(registry, pool.live[imageset])
      requires StateOnlyIfSplitting(registry)
      modifies this, fw, fw.wfp, fw.app, meter
      ensures Operational() && Repr() == old(Repr())
      ensures old(phase) == Engaged && ok ==>
                fw == old(fw) && fw.wfp.reauthorizations == old(fw.wfp.reauthorizations) + 1
      ensures ConfigurationReplaced(imageset, old(View()), View(), ok)
      ensures meter.faults >= old(meter.faults)
                          + if ok || !Replaceable(old(phase), old(ips), old(fw.View()), old(registry)) then 0 else 1
      ensures Untold() == old(Untold())
    {
      hide WalksEnd, ConfigurationReplaced, Replaceable, WellFormed, Mirrors, AllBoundTo, UndoAll, Complaints;
      if phase == Ready {
        ok := RegisterConfigurationAtReady(imageset);
      } else {
        ok := RegisterConfigurationAtEngaged(imageset);
      }
    }

    method SetConfiguration(address: nat, b: W.Buffer) returns (ok: bool)
      requires Operational() && (phase == Ready || phase == Engaged)
      requires address < W.SIZE_T_LIMIT && |b| < W.SIZE_T_LIMIT
      requires Completes(fold, Request.SetConfiguration(b), View())
      requires PoolAccounted(pool) && StateOnlyIfSplitting(registry)
      modifies this, fw, fw.wfp, fw.app, meter
      ensures Operational() && Repr() == old(Repr())
      ensures old(phase) == Engaged && ok ==>
                fw == old(fw) && fw.wfp.reauthorizations == old(fw.wfp.reauthorizations) + 1
      ensures SetConfigurationStep(fold, b, old(View()), View(), ok)
      ensures ok ==> Acceptable(W.CONFIGURATION, address, b)
      ensures Rejected(Request.SetConfiguration(b), address) ==> !ok && View() == old(View())
      ensures meter.faults >= old(meter.faults) + if ok || !Settable(old(View()), address, b) then 0 else 1
      ensures Untold() == old(Untold())
    {
      hide WalksEnd, Acceptable, Replaceable, ConfigurationReplaced, PoolAccounted, Firewall.Idle, Firewall.View;
      hide StateOnlyIfSplitting, ImagesOf, SetConfigurationStep, Complaints;
      var imageset := SetConfigurationPrepare(address, b);
      if imageset == None {
        PoolRoundTrip(old(pool), []);
        ConfigurationNotSet(fold, b, old(View()), View());
        return false;
      }
      PoolCreate(old(pool), ImagesOf(fold, b, W.NumEntries(b)));
      assert View() == old(View()).(pool := old(pool).Create(ImagesOf(fold, b, W.NumEntries(b))));
      ok := RegisterConfiguration(imageset.value);
      ConfigurationSet(fold, b, old(View()), View(), ok);
    }

    /** Marks all processes as not splitting and empties the configuration. */
    method ClearConfiguration() returns (ok: bool)
      requires Operational() && (phase == Ready || phase == Engaged)
      modifies this, fw, fw.wfp, fw.app, meter
      ensures Operational() && Repr() == old(Repr())
      ensures ClearConfigurationStep(old(View()), View(), ok)
      ensures meter.faults >= old(meter.faults)
                          + if ok || (old(phase) == Engaged && old(fw.View()).addresses.None?) then 0 else 1
      ensures Untold() == old(Untold())
    {
      hide Announced, Complaints;
      if phase == Engaged {
        ok := LeaveEngagedState();
        if !ok {
          return;
        }
      }
      pool := pool.(live := pool.live[instance.value := []]);
      ok := true;
    }

    // ----- Loading the process registry -----

    method RegisterProcesses(address: nat, b: W.Buffer) returns (ok: bool)
      requires Valid() && phase == Initialized && registry == map[]
      requires address < W.SIZE_T_LIMIT && |b| < W.SIZE_T_LIMIT
      modifies this`phase, this`registry, meter`faults
      ensures Valid() && RegisterProcessesStep(fold, b, old(View()), View(), ok)
      ensures ok ==> Acceptable(W.PROCESSES, address, b) && DistinctPids(b)
      ensures Rejected(Request.RegisterProcesses(b), address) ==> View() == old(View())
      ensures meter.faults >= old(meter.faults)
                          + if ok || !(Acceptable(W.PROCESSES, address, b) && DistinctPids(b)) then 0 else 1
    {
      ok := W.ValidateUserBuffer(W.PROCESSES, address, b);
      if !ok {
        return;
      }
      ok := LoadProcesses(b);
      if ok {
        phase := Ready;
      }
    }

    /** Adds the processes of a buffer one by one, or none of them. */
    method LoadProcesses(b: W.Buffer) returns (ok: bool)
      requires registry == map[] && W.WellFormed(W.PROCESSES, b)
      modifies this`registry, meter`faults
      ensures if ok then Loaded(fold, b, W.NumEntries(b), registry) else registry == map[]
      ensures meter.faults >= old(meter.faults) + if ok || !DistinctPids(b) then 0 else 1
    {
      hide Loaded, DiscoveredEntry, W.Decode, DistinctPids;
      LoadedNone(fold, b);
      var i := 0;
      while i < W.NumEntries(b)
        invariant i <= W.NumEntries(b)
        invariant Loaded(fold, b, i, registry) && meter.faults >= old(meter.faults)
      {
        LoadedStep(fold, b, i, registry);
        if DistinctPids(b) {
          NextIsNew(fold, b, i, registry);
        }
        var initialized := meter.Attempt();
        if initialized {
          ok := AddRegistryEntry(PidAt(b, i), DiscoveredEntry(fold, b, i));
        }
        if !initialized || !ok {
          registry := map[];
          return false;
        }
        i := i + 1;
      }
      ok := true;
    }

    /** procregistry::AddEntry: an id must not be registered yet, and memory may run out. */
    method AddRegistryEntry(p: Pid, e: Entry) returns (ok: bool)
      modifies this`registry, meter`faults
      ensures ok ==> p !in old(registry)
      ensures registry == if ok then old(registry)[p := e] else old(registry)
      ensures meter.faults >= old(meter.faults) + if ok || p in old(registry) then 0 else 1
    {
      if p in registry {
        return false;
      }
      ok := meter.Attempt();
      if ok {
        registry := registry[p := e];
      }
    }

    // ----- Arriving and departing processes -----

    method HandleProcessArriving(p: Pid, parent: Pid, name: ImageName) returns (added: bool, announced: bool)
      requires Operational() && (phase == Ready || phase == Engaged)
      modifies this`registry, this`log, meter`faults
      ensures Operational() && Repr() == old(Repr())
      ensures ArrivalStep(p, parent, FoldName(fold, name), old(View()), View(), added, announced)
      ensures meter.faults >= old(meter.faults)
      ensures meter.faults == old(meter.faults) ==>
                ArrivalFulfilled(p, parent, FoldName(fold, name), old(View()), View(), added, announced)
    {
      hide WellFormed, Mirrors, AllBoundTo, UndoAll, DetermineSplittingMode, ActiveTunnel, ArrivalStatus;
      announced := true;
      var initialized := meter.Attempt();
      if !initialized {
        return false, announced;
      }
      var image := FoldName(fold, name);
      var status, emitEvent := Off, false;
      if phase == Engaged {
        status := EvaluateSplitting(parent, image);
        if status != Off {
          announced := meter.Attempt();
          emitEvent := announced;
        }
      }
      added := AddArrivingProcess(p, parent, image, status, emitEvent);
    }

    /** Adds the entry, and logs the event for it or that adding it has failed. */
    method AddArrivingProcess(p: Pid, parent: Pid, image: ImageName, status: SplitStatus, emitEvent: bool)
      returns (added: bool)
      modifies this`registry, this`log, meter`faults
      ensures added ==> p !in old(registry) && registry == old(registry)[p := FreshEntry(parent, image, status)]
      ensures !added ==> registry == old(registry)
      ensures log == old(log)
                     + if added then if emitEvent then [StartSplitting(p, Arriving(status != OnByInheritance), image)]
                                     else []
                       else if p in old(registry) && SameProcess(old(registry)[p], parent, image) then []
                       else AddEntryErrorEvents(p, image, emitEvent)
      ensures meter.faults >= old(meter.faults) + if added || p in old(registry) then 0 else 1
    {
      var known := p in registry;
      added := AddRegistryEntry(p, FreshEntry(parent, image, status));
      if added {
        if emitEvent {
          log := log + [StartSplitting(p, Arriving(status != OnByInheritance), image)];
        }
      } else if !(known && SameProcess(registry[p], parent, image)) {
        log := log + [ErrorMessage];
        if emitEvent {
          log := log + [StartSplittingError(p, image)];
        }
      }
    }

    method EvaluateSplitting(parent: Pid, image: ImageName) returns (status: SplitStatus)
      requires Operational()
      ensures status == ArrivalStatus(registry, Configuration(View()), parent, image)
    {
      var flags := Lookup(pool.live[instance.value], image);
      if flags.Some? {
        return if IsHybrid(flags.value) then HybridByConfig else OnByConfig;
      }
      if parent == NO_PROCESS || parent !in registry || !SplittingEnabled(registry[parent].settings.split) {
        return Off;
      }
      return OnByInheritance;
    }

    /** Tells the firewall that one process less makes use of an image's filters. */
    method UpdateFirewallDepartingProcess(image: ImageName) returns (ok: bool)
      requires Operational()
      modifies this`log, fw, fw.wfp, fw.app, meter
      ensures Operational()
      ensures !ok ==> fw.View() == old(fw.View()) && Complains(old(log), log, 1)
      ensures ok ==> && IndexOf(old(fw.View()).blocked, image) < |old(fw.View()).blocked|
                     && fw.View() == old(fw.View()).(blocked := Unregistered(old(fw.View()).blocked, image))
                     && log == old(log)
      ensures meter.faults >= old(meter.faults)
                          + if ok || old(fw.View()).addresses.None?
                               || IndexOf(old(fw.View()).blocked, image) == |old(fw.View()).blocked| then 0 else 1
      ensures Untold() == old(Untold())
    {
      hide WellFormed, Mirrors, AllBoundTo, Unregistered, IndexOf, Undo, DetermineSplittingMode, ActiveTunnel;
      hide Complaints;
      var errors;
      ok, errors := fw.TransactionBegin();
      Report(errors);
      if !ok {
        return;
      }
      ok := fw.RegisterAppBecomingUnsplit(image);
      ok := FinishTransaction(ok);
    }

    /** Gives up the firewall state of a process, and logs whether that has worked. */
    method ReleaseDepartingProcess(p: Pid, image: ImageName) returns (released: bool)
      requires Operational()
      modifies this`log, this`leaked, fw, fw.wfp, fw.app, meter
      ensures Operational()
      ensures released ==> && IndexOf(old(fw.View()).blocked, image) < |old(fw.View()).blocked|
                           && fw.View() == old(fw.View()).(blocked := Unregistered(old(fw.View()).blocked, image))
                           && log == old(log) + [StopSplitting(p, Departing, image)] && leaked == old(leaked)
      ensures !released ==> && fw.View() == old(fw.View()) && leaked == old(leaked) + multiset{image}
                            && log != [] && log[|log| - 1] == StopSplittingError(p, image)
                            && Complains(old(log), log[..|log| - 1], 1)
      ensures meter.faults >= old(meter.faults)
                          + if released || old(fw.View()).addresses.None?
                               || IndexOf(old(fw.View()).blocked, image) == |old(fw.View()).blocked| then 0 else 1
      ensures Untold() == old(Untold())
    {
      hide WellFormed, Mirrors, AllBoundTo, IndexOf, Unregistered, Complains, UndoAll, DetermineSplittingMode;
      hide ActiveTunnel, Complaints;
      released := UpdateFirewallDepartingProcess(image);
      if released {
        ComplaintsSnoc(log, StopSplitting(p, Departing, image));
        log := log + [StopSplitting(p, Departing, image)];
      } else {
        ghost var complained := log;
        ComplaintsSnoc(log, StopSplittingError(p, image));
        log := log + [StopSplittingError(p, image)];
        assert log[..|log| - 1] == complained;
        leaked := leaked + multiset{image};
      }
    }

    method HandleProcessDeparting(p: Pid) returns (released: bool)
      requires Operational() && (phase == Ready || phase == Engaged)
      requires phase == Ready ==> AllOff(registry)
      modifies this`registry, this`log, this`leaked, fw, fw.wfp, fw.app, meter
      ensures Operational() && Repr() == old(Repr())
      ensures DepartureStep(p, old(View()), View(), released)
      ensures meter.faults >= old(meter.faults)
                          + if released || (old(phase) == Engaged
                                            && (old(fw.View()).addresses.None?
                                                || !Covered(old(fw.View()).blocked, old(registry)))) then 0 else 1
      ensures Untold() == old(Untold())
    {
      hide WellFormed, Mirrors, AllBoundTo, IndexOf, Unregistered, Complains, UndoAll, DetermineSplittingMode;
      hide ActiveTunnel, Removed, Covered, Firewall.Idle, Firewall.View, Complaints;
      released := true;
      if p !in registry {
        return;
      }
      var entry := registry[p];
      if entry.settings.hasFirewallState {
        assert phase == Engaged;
        if Covered(fw.View().blocked, registry) {
          DepartingRegistered(fw.View().blocked, registry, p);
        }
        released := ReleaseDepartingProcess(p, entry.image);
      } else if SplittingEnabled(entry.settings.split) {
        ComplaintsSnoc(log, StopSplitting(p, Departing, entry.image));
        log := log + [StopSplitting(p, Departing, entry.image)];
      }
      DeleteEntry(p);
    }

    /** procregistry::DeleteEntry: the children of the process are left without a parent. */
    method DeleteEntry(p: Pid)
      requires p in registry
      modifies this`registry
      ensures registry == Removed(old(registry), p)
    {
      registry := registry - {p};
      var todo := registry.Keys;
      while todo != {}
        invariant todo <= registry.Keys == old(registry).Keys - {p}
        invariant forall q :: q in registry ==>
                    registry[q] == if q in todo then old(registry)[q] else Removed(old(registry), p)[q]
      {
        var q :| q in todo;
        if registry[q].parent == p {
          registry := registry[q := registry[q].(parent := NO_PROCESS)];
        }
        todo := todo - {q};
      }
    }

    // ----- Initialization and reset -----

    /** Brings up the subsystems one after the other, and takes them down again if one fails. */
    method Initialize() returns (ok: bool)
      requires Valid() && phase == Started && subsystems == {} && instance == None
      requires PoolAccounted(pool)
      modifies this, meter`faults
      ensures Valid() && fresh(Repr() - old(Repr()))
      ensures InitializeStep(old(View()), View(), ok)
      ensures meter.faults >= old(meter.faults) + if ok then 0 else 1
      ensures log == if ok then [] else old(log)
    {
      hide WellFormed, Mirrors, AllBoundTo, DetermineSplittingMode, ActiveTunnel, PoolAccounted, UndoAll;
      hide Firewall.Idle, Firewall.View;
      ok := meter.Attempt();
      if !ok {
        return;
      }
      assert fw == null && View().fw == FW_OFF;
      subsystems := {Eventing};
      ok := meter.Attempt();
      if ok {
        subsystems := {Eventing, ProcessBroker};
        ok := InitializeProcessing();
      }
      if !ok {
        subsystems := {};
        return;
      }
      log, leaked, phase := [], multiset{}, Initialized;
    }

    /** The subsystems that hold the driver's state. */
    method InitializeProcessing() returns (ok: bool)
      requires Valid() && phase == Started && subsystems == {Eventing, ProcessBroker} && instance == None
      requires fw == null
      modifies meter`faults, this`subsystems, this`pool, this`instance, this`registry, this`fw
      ensures Valid() && fresh(Repr() - old(Repr()))
      ensures ok ==> View() == old(View()).(subsystems := ALL_SUBSYSTEMS, registry := map[],
                                            pool := old(pool).Create([]), instance := Some(old(pool).created))
      ensures !ok ==> View() == old(View()).(pool := pool)
                      && (pool == old(pool) || pool == old(pool).Create([]).TearDown(old(pool).created))
      ensures meter.faults >= old(meter.faults) + if ok then 0 else 1
    {
      hide WellFormed, Mirrors, AllBoundTo, DetermineSplittingMode, ActiveTunnel, UndoAll;
      ok := meter.Attempt();
      if !ok {
        return;
      }
      instance := Some(pool.created);
      pool := pool.Create([]);
      subsystems := {Eventing, ProcessBroker, RegisteredImages};
      ok := InitializeRegistry();
      if !ok {
        pool := pool.TearDown(instance.value);
        instance := None;
        subsystems := {Eventing, ProcessBroker};
      }
    }

    /** The process registry, and the firewall and process management that depend on it. */
    method InitializeRegistry() returns (ok: bool)
      requires Valid() && fw == null && subsystems == {Eventing, ProcessBroker, RegisteredImages}
      modifies meter`faults, this`subsystems, this`registry, this`fw
      ensures Valid() && fresh(Repr() - old(Repr()))
      ensures ok ==> View() == old(View()).(subsystems := ALL_SUBSYSTEMS, registry := map[])
      ensures !ok ==> View() == old(View()) && fw == null
      ensures meter.faults >= old(meter.faults) + if ok then 0 else 1
    {
      hide WellFormed, Mirrors, AllBoundTo, DetermineSplittingMode, ActiveTunnel, UndoAll;
      ok := meter.Attempt();
      if !ok {
        return;
      }
      subsystems := subsystems + {ProcessRegistry};
      ok := InitializeFirewall();
      if ok {
        registry := map[];
      } else {
        subsystems := {Eventing, ProcessBroker, RegisteredImages};
      }
    }

    /** The firewall, and process management that depends on it. */
    method InitializeFirewall() returns (ok: bool)
      requires Valid() && fw == null && subsystems !! {FirewallContext, ProcessMgmt}
      modifies meter`faults, this`subsystems, this`fw
      ensures Valid() && fresh(Repr() - old(Repr()))
      ensures ok ==> subsystems == old(subsystems) + {FirewallContext, ProcessMgmt} && View().fw == FW_OFF
      ensures !ok ==> subsystems == old(subsystems) && fw == null
      ensures meter.faults >= old(meter.faults) + if ok then 0 else 1
    {
      hide WellFormed, Mirrors, AllBoundTo, DetermineSplittingMode, ActiveTunnel;
      ok := meter.Attempt();
      if !ok {
        return;
      }
      fw := new Firewall(meter);
      subsystems := subsystems + {FirewallContext};
      ok := meter.Attempt();
      if ok {
        subsystems := subsystems + {ProcessMgmt};
      } else {
        var unregistered := fw.TearDown();
        fw := null;
        subsystems := subsystems - {FirewallContext};
      }
    }

    /** Tears down everything in reverse order of initializing it. The firewall refuses to go while
        splitting is enabled, and its callouts may be impossible to unregister. */
    method TearDownSubsystems() returns (ok: bool)
      requires Operational() && subsystems == ALL_SUBSYSTEMS
      modifies this, meter`faults
      ensures Valid() && Repr() <= old(Repr())
      ensures ok ==> old(View()).fw.addresses.None? && View() == ResetState(old(View()))
      ensures !ok ==> View() == old(View()).(phase := Zombie, subsystems := ALL_SUBSYSTEMS - {ProcessMgmt}
                                - (if old(View()).fw.addresses.None? then {FirewallContext} else {}))
      ensures meter.faults >= old(meter.faults) + if ok || old(View()).fw.addresses.Some? then 0 else 1
    {
      hide WellFormed, Mirrors, AllBoundTo, DetermineSplittingMode, ActiveTunnel, UndoAll;
      subsystems := ALL_SUBSYSTEMS - {ProcessMgmt};
      ok := fw.TearDown();
      if !ok {
        if !fw.splittingEnabled {
          fw := null;
          subsystems := subsystems - {FirewallContext};
        }
        phase := Zombie;
        return;
      }
      TearDownState();
    }

    /** Once the firewall is gone, nothing else can fail. */
    method TearDownState()
      requires HasInstance(View())
      modifies this
      ensures fw == null && Valid() && View() == ResetState(old(View()))
    {
      fw, ips, registry := null, NO_ADDRESSES, map[];
      pool, instance := pool.TearDown(instance.value), None;
      log, leaked := [], multiset{};
      subsystems, phase := {}, Started;
    }

    method ResetInner() returns (ok: bool)
      requires Operational() && subsystems == ALL_SUBSYSTEMS
      requires phase != Started && phase != Zombie
      modifies this, Repr(), meter
      ensures Valid() && Repr() <= old(Repr())
      ensures ResetStep(old(View()), View(), ok)
      ensures meter.faults >= old(meter.faults)
                          + if ok || (old(phase) != Engaged && old(View()).fw.addresses.Some?) then 0 else 1
      ensures !ok ==> Untold() == old(Untold())
    {
      hide Announced, WellFormed, AllBoundTo, DetermineSplittingMode, ActiveTunnel, Complaints;
      if phase == Engaged {
        var left := LeaveEngagedState();
      }
      ok := TearDownSubsystems();
    }

    // ----- The dispatcher -----

    /** A reset is served in any state, though not always with success. */
    method HandleReset(ghost address: nat) returns (ok: bool)
      requires Valid() && Inv(View())
      modifies this, Repr(), meter
      ensures Valid() && Repr() <= old(Repr())
      ensures ResetStep(old(View()), View(), ok)
      ensures meter.faults >= old(meter.faults)
      ensures meter.faults == old(meter.faults) ==> (ok <==> Succeeds(Request.Reset, address, old(View())))
      ensures !ok ==> Untold() == old(Untold())
    {
      hide WellFormed, Mirrors, AllBoundTo, UndoAll, LeaveStep, Conserved, Committed, Complaints;
      match phase {
        case Started => ok := true;
        case Zombie => ok := false;
        case _ =>
          ok := ResetInner();
          if ok {
            ResetCould(old(View()), View());
          }
      }
    }

    /** Serves a request whose buffer, if any, is mapped at `address`. Requests that the current
        state does not allow are rejected. */
    method HandleRequest(request: Request, address: nat) returns (ok: bool)
      requires Valid() && Inv(View()) && Completes(fold, request, View())
      requires address < W.SIZE_T_LIMIT && BufferLength(request) <= W.MAX_IO_BUFFER_SIZE
      modifies this, Repr(), meter
      ensures Valid() && fresh(Repr() - old(Repr()))
      ensures RequestStep(fold, request, old(View()), View(), ok)
      ensures meter.faults >= old(meter.faults)
      ensures meter.faults == old(meter.faults) && !request.Query? ==>
                (ok <==> Succeeds(request, address, old(View())))
      ensures Rejected(request, address) ==> View() == old(View())
      ensures !(request.Reset? && ok) ==> Untold() == old(Untold())
    {
      hide WellFormed, Mirrors, AllBoundTo, UndoAll, Completes, Conserved, Committed, StateOnlyIfSplitting;
      hide InitializeStep, RegisterProcessesStep, RegisterIpAddressesStep, SetConfigurationStep;
      hide ClearConfigurationStep, ResetStep, Succeeds, Acceptable, DistinctPids, Complaints, PoolAccounted;
      if request.Reset? {
        ok := HandleReset(address);
        return;
      }
      if phase == Ready || phase == Engaged {
        ok := HandleConfiguredRequest(request, address);
      } else {
        ok := HandleEarlyRequest(request, address);
      }
    }

    /** The requests that are served before processes are registered. A zombie serves none. */
    method HandleEarlyRequest(request: Request, address: nat) returns (ok: bool)
      requires Valid() && Inv(View()) && phase != Ready && phase != Engaged && !request.Reset?
      requires address < W.SIZE_T_LIMIT && BufferLength(request) <= W.MAX_IO_BUFFER_SIZE
      modifies this, meter`faults
      ensures Valid() && fresh(Repr() - old(Repr()))
      ensures RequestStep(fold, request, old(View()), View(), ok)
      ensures meter.faults >= old(meter.faults)
      ensures meter.faults == old(meter.faults) ==> (ok <==> Succeeds(request, address, old(View())))
      ensures Rejected(request, address) ==> View() == old(View())
      ensures Untold() == old(Untold())
    {
      hide WellFormed, Mirrors, AllBoundTo, UndoAll, Conserved, Committed, StateOnlyIfSplitting, InitializeStep;
      hide RegisterProcessesStep, Succeeds, Acceptable, DistinctPids, Complaints, Firewall.Idle, Firewall.View;
      ServedExactly(request, address, View());
      ok := false;
      match phase {
        case Started =>
          if request.Initialize? {
            ok := Initialize();
          }
        case Initialized =>
          if request.RegisterProcesses? {
            LoadableExactly(View(), address, request.buffer);
            ok := RegisterProcesses(address, request.buffer);
          }
        case _ =>
      }
    }

    /** The requests that are served while processes are registered. */
    method HandleConfiguredRequest(request: Request, address: nat) returns (ok: bool)
      requires Valid() && Inv(View()) && Completes(fold, request, View()) && (phase == Ready || phase == Engaged)
      requires address < W.SIZE_T_LIMIT && BufferLength(request) <= W.MAX_IO_BUFFER_SIZE && !request.Reset?
      modifies this, Repr(), meter
      ensures Valid() && Repr() == old(Repr())
      ensures RequestStep(fold, request, old(View()), View(), ok)
      ensures meter.faults >= old(meter.faults)
      ensures meter.faults == old(meter.faults) && !request.Query? ==>
                (ok <==> Succeeds(request, address, old(View())))
      ensures Rejected(request, address) ==> View() == old(View())
      ensures Untold() == old(Untold())
    {
      hide Completes, RegisterIpAddressesStep, SetConfigurationStep, ClearConfigurationStep, Conserved, Committed;
      hide WellFormed, Mirrors, AllBoundTo, UndoAll, Registrable, Settable, Acceptable, PoolAccounted, Succeeds;
      hide Complaints;
      ghost var s := View();
      ServedExactly(request, address, s);
      ok := false;
      match request {
        case RegisterIpAddresses(newIps) =>
          RegistrableExactly(s, address, newIps);
          ok := RegisterIpAddresses(newIps);
          if ok {
            RegisteredCould(s, address, newIps, View());
          }
        case SetConfiguration(b) =>
          SettableExactly(s, address, b);
          ok := SetConfiguration(address, b);
          if ok {
            ConfiguredCould(fold, s, address, b, View());
          }
        case ClearConfiguration =>
          ok := ClearConfiguration();
        case Query =>
          ok := *;
        case _ =>
      }
    }

    /** Rejects requests with unreasonably large buffers before anything else. */
    method DeviceControl(request: Request, address: nat, inputLength: nat, outputLength: nat) returns (ok: bool)
      requires Valid() && Inv(View()) && Completes(fold, request, View())
      requires address < W.SIZE_T_LIMIT && BufferLength(request) <= inputLength
      modifies this, Repr(), meter
      ensures Valid() && fresh(Repr() - old(Repr()))
      ensures inputLength > W.MAX_IO_BUFFER_SIZE || outputLength > W.MAX_IO_BUFFER_SIZE ==>
                !ok && View() == old(View())
      ensures !Oversized(inputLength, outputLength) ==> RequestStep(fold, request, old(View()), View(), ok)
      ensures meter.faults >= old(meter.faults)
      ensures meter.faults == old(meter.faults) && !request.Query? && !Oversized(inputLength, outputLength) ==>
                (ok <==> Succeeds(request, address, old(View())))
      ensures Rejected(request, address) ==> View() == old(View())
      ensures !(request.Reset? && ok) ==> Untold() == old(Untold())
    {
      hide Inv, RequestStep, Completes, Succeeds, Rejected, Complaints;
      if Oversized(inputLength, outputLength) {
        return false;
      }
      ok := HandleRequest(request, address);
    }

    /** Takes in whatever comes next, and is ready for more. */
    method HandleInput(input: Input) returns (ghost step: Step)
      requires Valid() && Inv(View()) && Welcome(fold, input, View())
      modifies this, Repr(), meter
      ensures Valid() && fresh(Repr() - old(Repr()))
      ensures StepFor(fold, input, old(View()), step) && Next(fold, step, old(View()), View())
      ensures Inv(View())
      ensures meter.faults >= old(meter.faults)
      ensures meter.faults == old(meter.faults) ==> Fulfilled(input, old(View()), step, View())
      ensures !step.Arrive? && !(step.Serve? && step.request.Reset? && step.ok) ==> Untold() == old(Untold())
    {
      hide RequestStep, Completes, ArrivalStep, DepartureStep, ArrivalFulfilled, Succeeds, Inv, Rejected, Complaints;
      match input {
        case Control(request, address, inputLength, outputLength) =>
          var ok := DeviceControl(request, address, inputLength, outputLength);
          step := if Oversized(inputLength, outputLength) then Ignore else Serve(request, ok);
        case ProcessArriving(p, parent, name) =>
          step := Ignore;
          if phase == Ready || phase == Engaged {
            InvDispatching(View());
            var added, announced := HandleProcessArriving(p, parent, name);
            step := Arrive(p, parent, FoldName(fold, name), added, announced);
          }
        case ProcessDeparting(p) =>
          step := Ignore;
          if phase == Ready || phase == Engaged {
            InvDispatching(View());
            var released := HandleProcessDeparting(p);
            step := Depart(p, released);
          }
      }
      StepKeeps(fold, step, old(View()), View());
    }

    /** Serves the next of a list of inputs, and puts on record what has been done. */
    method HandleNext(inputs: seq<Input>, i: nat, ghost steps: seq<Step>, ghost states: seq<State>)
      returns (ghost step: Step)
      requires Valid() && Inv(View()) && AlwaysWelcome(fold, inputs)
      requires i < |inputs| && |steps| == i && Accomplished(fold, inputs, steps, states, View())
      requires meter.faults == 0 ==> AllFulfilled(inputs, steps, states)
      modifies this, Repr(), meter
      ensures Valid() && fresh(Repr() - old(Repr()))
      ensures Inv(View()) && Accomplished(fold, inputs, steps + [step], states + [View()], View())
      ensures meter.faults == 0 ==> AllFulfilled(inputs, steps + [step], states + [View()])
    {
      hide Inv, Next, Welcome, StepFor, Accomplished, AlwaysWelcome, Fulfilled, AllFulfilled;
      NextWelcome(fold, inputs, steps, states, View());
      step := HandleInput(inputs[i]);
      AccomplishedSnoc(fold, inputs, steps, states, old(View()), step, View());
      if meter.faults == 0 {
        FulfilledSnoc(fold, inputs, steps, states, old(View()), step, View());
      }
    }
  }

  /** A driver from the moment that it is loaded: whatever it is given to do and whatever fails, what it
      does is a run, as long as no request sets off a walk without end. */
  method Operate(fold: CaseFolding, inputs: seq<Input>)
    returns (driver: Driver, ghost steps: seq<Step>, ghost states: seq<State>)
    requires AlwaysWelcome(fold, inputs)
    ensures driver.Valid() && driver.fold == fold && fresh(driver.Repr())
    ensures Accomplished(fold, inputs, steps, states, driver.View()) && |steps| == |inputs|
    ensures driver.meter.faults == 0 ==> AllFulfilled(inputs, steps, states)
  {
    hide WellFormed, Mirrors, AllBoundTo, UndoAll, DetermineSplittingMode, ActiveTunnel;
    hide Inv, Accomplished, AlwaysWelcome, AllFulfilled, Fulfilled, Firewall.Idle, Firewall.View, Driver.Valid;
    hide Driver.Untold, Complaints, Welcome, Next, StepFor;
    driver := new Driver(fold);
    steps, states := [], [driver.View()];
    NothingAccomplished(fold, inputs);
    NothingToFulfil(inputs, states);
    for i := 0 to |inputs|
      invariant driver.Valid() && driver.fold == fold && fresh(driver.Repr()) && fresh(driver.meter)
      invariant Inv(driver.View())
      invariant Accomplished(fold, inputs, steps, states, driver.View()) && |steps| == i
      invariant driver.meter.faults == 0 ==> AllFulfilled(inputs, steps, states)
    {
      ghost var step := driver.HandleNext(inputs, i, steps, states);
      steps, states := steps + [step], states + [driver.View()];
    }
  }
}
