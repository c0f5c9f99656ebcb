/** How many registered processes account for the blocking filters of an image. */
module Conservation {
  import opened SplitTypes
  import opened Ancestry

  function UserSet(r: Registry, image: ImageName): set<Pid> {
    set p | p in r && r[p].image == image && r[p].settings.hasFirewallState
  }

  function Users(r: Registry, image: ImageName): nat {
    |UserSet(r, image)|
  }

  /** In the middle of a synchronization, the processes in `done` count by their target settings. */
  function MixedSet(r: Registry, done: set<Pid>, image: ImageName): set<Pid> {
    set p | p in r && r[p].image == image && (if p in done then r[p].target else r[p].settings).hasFirewallState
  }

  function MixedUsers(r: Registry, done: set<Pid>, image: ImageName): nat {
    |MixedSet(r, done, image)|
  }

  function Weight(e: Entry, settings: Settings, image: ImageName): nat {
    if e.image == image && settings.hasFirewallState then 1 else 0
  }

  /** Two sets that differ in `p` at most. */
  lemma CountsDiffer(a: set<Pid>, b: set<Pid>, p: Pid)
    requires a - {p} == b - {p}
    ensures |b| == |a| + (if p in b then 1 else 0) - (if p in a then 1 else 0)
  {
    assert a == a - {p} + if p in a then {p} else {};
    assert b == b - {p} + if p in b then {p} else {};
  }

  /** Moving one process over to its target changes the count of its own image alone. */
  lemma MixedUsersStep(r: Registry, done: set<Pid>, p: Pid, target: Settings, image: ImageName)
    requires p in r && p !in done
    ensures MixedUsers(r[p := r[p].(target := target)], done + {p}, image)
            == MixedUsers(r, done, image) + Weight(r[p], target, image) - Weight(r[p], r[p].settings, image)
  {
    CountsDiffer(MixedSet(r, done, image), MixedSet(r[p := r[p].(target := target)], done + {p}, image), p);
  }

  /** Before the first and after the last step, mixed counts are plain ones. */
  lemma MixedUsersEnds(r: Registry, r': Registry, image: ImageName)
    requires r'.Keys == r.Keys
    requires forall p :: p in r ==> r'[p].image == r[p].image && r'[p].settings == r[p].target
    ensures MixedUsers(r, {}, image) == Users(r, image)
    ensures MixedUsers(r, r.Keys, image) == Users(r', image)
  {
    assert MixedSet(r, {}, image) == UserSet(r, image);
    assert MixedSet(r, r.Keys, image) == UserSet(r', image);
  }

  lemma NoUsers(r: Registry, image: ImageName)
    requires forall p :: p in r ==> !r[p].settings.hasFirewallState
    ensures Users(r, image) == 0
  {
    assert UserSet(r, image) == {};
  }

  /** Adding or changing one entry changes the counts by that entry. */
  lemma UsersUpdate(r: Registry, p: Pid, e: Entry, image: ImageName)
    ensures Users(r[p := e], image)
            == Users(r, image) + Weight(e, e.settings, image)
               - if p in r then Weight(r[p], r[p].settings, image) else 0
  {
    CountsDiffer(UserSet(r, image), UserSet(r[p := e], image), p);
  }

  lemma UsersRemoved(r: Registry, p: Pid, image: ImageName)
    requires p in r
    ensures Users(Removed(r, p), image) == Users(r, image) - Weight(r[p], r[p].settings, image)
  {
    CountsDiffer(UserSet(r, image), UserSet(Removed(r, p), image), p);
  }
}
