/** Which processes are to be split: by their configuration, or because an ancestor is. */
module Propagation {
  import opened SplitTypes
  import opened Ancestry

  // ----- Targets -----

  /** UpdateTargetSplitSetting: what an entry alone has to say about its target. */
  function Seed(images: ImageSet, e: Entry): SplitStatus {
    match Lookup(images, e.image)
    case Some(flags) => if IsHybrid(flags) then HybridByConfig else OnByConfig
    case None => if e.parent == NO_PROCESS && e.settings.split == OnByInheritance then OnByInheritance else Off
  }

  predicate SeededAt(r: Registry, images: ImageSet, p: Pid, n: nat)
    requires p in r
  {
    var a := NthAncestor(r, p, n);
    a.Some? && SplittingEnabled(Seed(images, r[a.value]))
  }

  /** The process or some ancestor of it is seeded as splitting. */
  ghost predicate Splits(r: Registry, images: ImageSet, p: Pid)
    requires p in r
  {
    exists n: nat :: SeededAt(r, images, p, n)
  }

  /** The target that propagation is to arrive at. */
  ghost function Target(r: Registry, images: ImageSet, p: Pid): SplitStatus
    requires p in r
  {
    var seed := Seed(images, r[p]);
    if !SplittingEnabled(seed) && Splits(r, images, p) then OnByInheritance else seed
  }

  /** Splitting processes keep their firewall state; those that start splitting get some. */
  function WithFirewallState(current: Settings, target: SplitStatus): Settings {
    Settings(target, SplittingEnabled(target) && (SplittingEnabled(current.split) ==> current.hasFirewallState))
  }

  ghost function TargetSettings(r: Registry, images: ImageSet, p: Pid): Settings
    requires p in r
  {
    WithFirewallState(r[p].settings, Target(r, images, p))
  }

  /** The registry after a successful synchronization. */
  ghost function Synced(r: Registry, images: ImageSet): Registry {
    map p | p in r :: Entry(r[p].parent, r[p].image, TargetSettings(r, images, p),
                            TargetSettings(r, images, p), r[p].settings)
  }

  // ----- Properties of targets -----

  /** Splitting is inherited link by link. */
  lemma SplitsFromParent(r: Registry, images: ImageSet, p: Pid)
    requires p in r
    ensures Splits(r, images, p)
            <==> SplittingEnabled(Seed(images, r[p]))
                 || (ParentOf(r, p).Some? && Splits(r, images, ParentOf(r, p).value))
  {
    if SplittingEnabled(Seed(images, r[p])) {
      assert SeededAt(r, images, p, 0);
    } else if ParentOf(r, p).Some? {
      var parent := ParentOf(r, p).value;
      if n: nat :| SeededAt(r, images, parent, n) {
        assert SeededAt(r, images, p, n + 1);
      }
      if n: nat :| SeededAt(r, images, p, n) {
        assert SeededAt(r, images, parent, n - 1);
      }
    } else {
      forall n: nat
        ensures !SeededAt(r, images, p, n)
      {
      }
    }
  }

  /** A process ends up splitting exactly when it or some ancestor is seeded as splitting. */
  lemma TargetSplits(r: Registry, images: ImageSet, p: Pid)
    requires p in r
    ensures SplittingEnabled(Target(r, images, p)) <==> Splits(r, images, p)
  {
    SplitsFromParent(r, images, p);
  }

  /** The seeds of a synchronized registry are the seeds it was synchronized from. */
  lemma SyncedSeed(r: Registry, images: ImageSet, p: Pid)
    requires p in r
    ensures Seed(images, Synced(r, images)[p]) == Seed(images, r[p])
  {
    if r[p].parent == NO_PROCESS {
      SplitsFromParent(r, images, p);
    }
  }

  /** Synchronizing again with the same configuration changes no target. */
  lemma SyncedTarget(r: Registry, images: ImageSet, p: Pid)
    requires p in r
    ensures Target(Synced(r, images), images, p) == Target(r, images, p)
  {
    var r' := Synced(r, images);
    forall n: nat
      ensures SeededAt(r', images, p, n) == SeededAt(r, images, p, n)
    {
      NthAncestorSameParents(r, r', p, n);
      if NthAncestor(r, p, n).Some? {
        SyncedSeed(r, images, NthAncestor(r, p, n).value);
      }
    }
    SyncedSeed(r, images, p);
  }

  /** Nor does it change any settings, so that nothing is registered, unregistered or announced. */
  lemma SyncIdempotent(r: Registry, images: ImageSet)
    ensures var r' := Synced(r, images);
            var r'' := Synced(r', images);
            r''.Keys == r'.Keys && forall p :: p in r' ==> r''[p].settings == r'[p].settings
  {
    var r' := Synced(r, images);
    forall p | p in r'
      ensures Synced(r', images)[p].settings == r'[p].settings
    {
      SyncedTarget(r, images, p);
    }
  }

  // ----- Walks towards the root -----

  /** After `n` links, the walk from `p` has met a seeded ancestor or left the registry. */
  ghost predicate WalkEndsAt(r: Registry, images: ImageSet, p: Pid, n: nat)
    requires p in r
  {
    SeededAt(r, images, p, n) || NthAncestor(r, p, n).None?
  }

  ghost predicate WalkEnds(r: Registry, images: ImageSet, p: Pid)
    requires p in r
  {
    exists n: nat :: WalkEndsAt(r, images, p, n)
  }

  ghost predicate WalksEnd(r: Registry, images: ImageSet) {
    forall p :: p in r ==> WalkEnds(r, images, p)
  }

  /** A registry without cycles asks for no seed. */
  lemma AcyclicWalksEnd(r: Registry, images: ImageSet)
    requires Acyclic(r)
    ensures WalksEnd(r, images)
  {
    forall p | p in r
      ensures WalkEnds(r, images, p)
    {
      AcyclicEnds(r, p);
      var n: nat :| NthAncestor(r, p, n).None?;
      assert WalkEndsAt(r, images, p, n);
    }
  }

  // ----- Arrivals and departures between synchronizations -----

  /** The current settings are those that a synchronization would compute anew. */
  ghost predicate Stable(r: Registry, images: ImageSet) {
    forall p :: p in r ==> r[p].settings.split == Target(r, images, p)
  }

  predicate ConfiguredHybrid(images: ImageSet, image: ImageName) {
    var flags := Lookup(images, image);
    flags.Some? && IsHybrid(flags.value)
  }

  /** The registered parent of an entry that is itself not registered yet. */
  function ParentOfNew(r: Registry, parent: Pid): (e: Option<Entry>) {
    if parent == NO_PROCESS || parent !in r then None else Some(r[parent])
  }

  predicate ParentSplits(r: Registry, parent: Pid) {
    var e := ParentOfNew(r, parent);
    e.Some? && SplittingEnabled(e.value.settings.split)
  }

  /** EvaluateSplitting: the status of an arriving process while engaged. */
  function ArrivalStatus(r: Registry, images: ImageSet, parent: Pid, image: ImageName): SplitStatus {
    match Lookup(images, image)
    case Some(flags) => if IsHybrid(flags) then HybridByConfig else OnByConfig
    case None => if ParentSplits(r, parent) then OnByInheritance else Off
  }

  /** A synchronized registry is stable. */
  lemma SyncedStable(r: Registry, images: ImageSet)
    ensures Stable(Synced(r, images), images)
  {
    var r' := Synced(r, images);
    forall p | p in r'
      ensures r'[p].settings.split == Target(r', images, p)
    {
      SyncedTarget(r, images, p);
    }
  }

  /** Targets do not depend on what previous and pending targets an entry has. */
  lemma TargetSameSettings(r: Registry, r': Registry, images: ImageSet, p: Pid)
    requires p in r && SameParents(r, r')
    requires forall q :: q in r ==> r'[q].image == r[q].image && r'[q].settings == r[q].settings
    ensures Target(r', images, p) == Target(r, images, p)
  {
    forall n: nat
      ensures SeededAt(r', images, p, n) == SeededAt(r, images, p, n)
    {
      NthAncestorSameParents(r, r', p, n);
    }
  }

  /** A child that was waiting for its parent to be registered, and that does not split. */
  predicate AdoptedIdle(r: Registry, p: Pid, q: Pid)
    requires q in r
  {
    p != NO_PROCESS && r[q].parent == p && !SplittingEnabled(r[q].settings.split)
  }

  /** An arriving process that a full propagation would see otherwise, or that would pass splitting on
      to a child that is there already. */
  ghost predicate DisturbingArrival(r: Registry, images: ImageSet, p: Pid, parent: Pid, image: ImageName) {
    || (ConfiguredHybrid(images, image) && ParentSplits(r, parent))
    || (&& SplittingEnabled(ArrivalStatus(r, images, parent, image))
        && exists q :: q in r && AdoptedIdle(r, p, q))
  }

  lemma SplitsKept(r: Registry, images: ImageSet, p: Pid, e: Entry, q: Pid)
    requires p !in r && q in r && Splits(r, images, q)
    ensures Splits(r[p := e], images, q)
  {
    var n: nat :| SeededAt(r, images, q, n);
    AncestorsKept(r, p, e, q, n);
    assert SeededAt(r[p := e], images, q, n);
  }

  /** What splits after an undisturbing arrival has split before, or is the new process. */
  lemma {:induction false} ArrivalSplitsNoMore(r: Registry, images: ImageSet, p: Pid, parent: Pid, image: ImageName,
                                               q: Pid, n: nat)
    requires Stable(r, images) && p !in r && !DisturbingArrival(r, images, p, parent, image)
    requires q in r || q == p
    requires SeededAt(r[p := FreshEntry(parent, image, ArrivalStatus(r, images, parent, image))], images, q, n)
    ensures if q == p then SplittingEnabled(ArrivalStatus(r, images, parent, image)) else Splits(r, images, q)
    decreases n
  {
    hide Lookup;
    var r' := r[p := FreshEntry(parent, image, ArrivalStatus(r, images, parent, image))];
    if n == 0 {
      if q in r {
        assert SeededAt(r, images, q, 0);
      }
    } else {
      var a := ParentOf(r', q).value;
      ArrivalSplitsNoMore(r, images, p, parent, image, a, n - 1);
      if q in r {
        SplitsFromParent(r, images, q);
        TargetSplits(r, images, q);
        assert a == p ==> !AdoptedIdle(r, p, q);
      } else if a in r {
        TargetSplits(r, images, a);
      }
    }
  }

  /** The arriving process itself, in the registry that it has become part of. */
  lemma ArrivedSplits(r: Registry, images: ImageSet, p: Pid, parent: Pid, image: ImageName)
    requires Stable(r, images) && p !in r
    requires SplittingEnabled(ArrivalStatus(r, images, parent, image)) || ParentSplits(r, parent)
    ensures Splits(r[p := FreshEntry(parent, image, ArrivalStatus(r, images, parent, image))], images, p)
  {
    var e := FreshEntry(parent, image, ArrivalStatus(r, images, parent, image));
    if ParentSplits(r, parent) {
      TargetSplits(r, images, parent);
      SplitsKept(r, images, p, e, parent);
    }
    SplitsFromParent(r[p := e], images, p);
  }

  /** After an arrival all settings are as a full propagation would set them, except if a hybrid process
      arrives under a splitting parent, or a splitting process adopts a child that does not split. */
  lemma ArrivalRefinesSync(r: Registry, images: ImageSet, p: Pid, parent: Pid, image: ImageName)
    requires Stable(r, images) && p !in r
    ensures Stable(r[p := FreshEntry(parent, image, ArrivalStatus(r, images, parent, image))], images)
            <==> !DisturbingArrival(r, images, p, parent, image)
  {
    var e := FreshEntry(parent, image, ArrivalStatus(r, images, parent, image));
    var r' := r[p := e];
    if DisturbingArrival(r, images, p, parent, image) {
      ArrivedSplits(r, images, p, parent, image);
      TargetSplits(r', images, p);
      if !(ConfiguredHybrid(images, image) && ParentSplits(r, parent)) {
        var q :| q in r && AdoptedIdle(r, p, q);
        SplitsFromParent(r', images, q);
        TargetSplits(r', images, q);
        assert r'[q] == r[q];
      }
    } else {
      forall q | q in r'
        ensures r'[q].settings.split == Target(r', images, q)
      {
        ArrivalTarget(r, images, p, parent, image, q);
      }
    }
  }

  lemma ArrivalTarget(r: Registry, images: ImageSet, p: Pid, parent: Pid, image: ImageName, q: Pid)
    requires Stable(r, images) && p !in r && !DisturbingArrival(r, images, p, parent, image)
    requires q in r || q == p
    ensures var r' := r[p := FreshEntry(parent, image, ArrivalStatus(r, images, parent, image))];
            r'[q].settings.split == Target(r', images, q)
  {
    hide DisturbingArrival;
    var e := FreshEntry(parent, image, ArrivalStatus(r, images, parent, image));
    var r' := r[p := e];
    if n: nat :| SeededAt(r', images, q, n) {
      ArrivalSplitsNoMore(r, images, p, parent, image, q, n);
    }
    if q in r {
      if Splits(r, images, q) {
        SplitsKept(r, images, p, e, q);
      }
    } else if SplittingEnabled(ArrivalStatus(r, images, parent, image)) {
      ArrivedSplits(r, images, p, parent, image);
    }
  }

  /** A child that loses its parent while it splits by inheritance despite being configured hybrid. */
  predicate HybridOrphan(r: Registry, images: ImageSet, p: Pid, q: Pid)
    requires q in r
  {
    q != p && p != NO_PROCESS && r[q].parent == p
    && ConfiguredHybrid(images, r[q].image) && r[q].settings.split == OnByInheritance
  }

  /** A process that was splitting still has a reason to, if need be as an orphan. */
  lemma {:induction false} DepartureSplitsNoLess(r: Registry, images: ImageSet, p: Pid, q: Pid, n: nat)
    requires Stable(r, images) && q in r && q != p && SeededAt(r, images, q, n)
    requires forall c :: c in r ==> !HybridOrphan(r, images, p, c)
    ensures Splits(Removed(r, p), images, q)
    decreases n
  {
    var r' := Removed(r, p);
    assert SplittingEnabled(Seed(images, r[q])) ==> SplittingEnabled(Seed(images, r'[q]));
    SplitsFromParent(r', images, q);
    if n > 0 {
      var a := ParentOf(r, q).value;
      if a == p {
        assert SeededAt(r, images, q, n) && Splits(r, images, q);
        assert !HybridOrphan(r, images, p, q);
      } else {
        DepartureSplitsNoLess(r, images, p, a, n - 1);
      }
    }
  }

  lemma {:induction false} DepartureSplitsNoMore(r: Registry, images: ImageSet, p: Pid, q: Pid, n: nat)
    requires Stable(r, images) && q in r && q != p && SeededAt(Removed(r, p), images, q, n)
    ensures Splits(r, images, q)
    decreases n
  {
    var r' := Removed(r, p);
    SplitsFromParent(r, images, q);
    TargetSplits(r, images, q);
    if n > 0 {
      DepartureSplitsNoMore(r, images, p, ParentOf(r', q).value, n - 1);
    }
  }

  /** A departure leaves all settings as a full propagation would set them, except when it orphans a
      hybrid process that was splitting by inheritance. */
  lemma DepartureRefinesSync(r: Registry, images: ImageSet, p: Pid)
    requires Stable(r, images)
    ensures Stable(Removed(r, p), images) <==> forall q :: q in r ==> !HybridOrphan(r, images, p, q)
  {
    var r' := Removed(r, p);
    if q :| q in r && HybridOrphan(r, images, p, q) {
      assert r'[q].settings.split != Target(r', images, q) by {
        SplitsFromParent(r', images, q);
      }
    } else {
      forall q | q in r'
        ensures r'[q].settings.split == Target(r', images, q)
      {
        DepartureTarget(r, images, p, q);
      }
    }
  }

  lemma DepartureTarget(r: Registry, images: ImageSet, p: Pid, q: Pid)
    requires Stable(r, images) && q in r && q != p
    requires forall c :: c in r ==> !HybridOrphan(r, images, p, c)
    ensures Removed(r, p)[q].settings.split == Target(Removed(r, p), images, q)
  {
    var r' := Removed(r, p);
    if n: nat :| SeededAt(r, images, q, n) {
      DepartureSplitsNoLess(r, images, p, q, n);
    }
    if n: nat :| SeededAt(r', images, q, n) {
      DepartureSplitsNoMore(r, images, p, q, n);
    }
    assert !HybridOrphan(r, images, p, q);
  }
}
