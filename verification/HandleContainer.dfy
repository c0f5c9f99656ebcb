/** The table of contexts behind the handles that the WireGuard library gives to its callers. */
module HandleContainer {

  const MAX_INT32 := 0x7fff_ffff

  type Handle = h: int | -0x8000_0000 <= h <= MAX_INT32

  datatype Result<+T> = Success(value: T) | Failure

  function Lookup<T>(m: map<Handle, T>, handle: Handle): Result<T> {
    if handle in m then Success(m[handle]) else Failure
  }

  /** The handle is free and no smaller one is. */
  ghost predicate LeastFree<T>(m: map<Handle, T>, handle: int) {
    && 0 <= handle <= MAX_INT32
    && handle !in m
    && forall h: Handle :: 0 <= h < handle ==> h in m
  }

  // ----- Calls -----

  datatype Call<T> =
    | Inserted(context: T, issued: Result<Handle>)
    | Got(handle: Handle, found: Result<T>)
    | Removed(handle: Handle, found: Result<T>)

  ghost predicate InsertStep<T>(m: map<Handle, T>, m': map<Handle, T>, context: T, r: Result<Handle>) {
    match r
    case Success(h) => LeastFree(m, h) && h < MAX_INT32 && m' == m[h := context]
    case Failure => m' == m && forall h: Handle :: 0 <= h < MAX_INT32 ==> h in m
  }

  ghost predicate RemoveStep<T>(m: map<Handle, T>, m': map<Handle, T>, handle: Handle, r: Result<T>) {
    r == Lookup(m, handle) && m' == m - {handle}
  }

  ghost predicate CallStep<T>(m: map<Handle, T>, m': map<Handle, T>, call: Call<T>) {
    match call
    case Inserted(context, r) => InsertStep(m, m', context, r)
    case Got(handle, r) => r == Lookup(m, handle) && m' == m
    case Removed(handle, r) => RemoveStep(m, m', handle, r)
  }

  class Container<Context> {
    var tunnels: map<Handle, Context>

    constructor ()
      ensures tunnels == map[]
    {
      tunnels := map[];
    }

    method Insert(context: Context) returns (r: Result<Handle>)
      modifies this
      ensures InsertStep(old(tunnels), tunnels, context, r)
    {
      var i := 0;
      while i < MAX_INT32
        invariant 0 <= i <= MAX_INT32
        invariant forall h: Handle :: 0 <= h < i ==> h in tunnels
      {
        if i !in tunnels {
          break;
        }
        i := i + 1;
      }
      if i == MAX_INT32 {
        return Failure;
      }
      tunnels := tunnels[i := context];
      return Success(i);
    }

    method Get(handle: Handle) returns (r: Result<Context>)
      ensures r == Lookup(tunnels, handle)
    {
      if handle !in tunnels {
        return Failure;
      }
      return Success(tunnels[handle]);
    }

    method Remove(handle: Handle) returns (r: Result<Context>)
      modifies this
      ensures RemoveStep(old(tunnels), tunnels, handle, r)
    {
      if handle !in tunnels {
        return Failure;
      }
      r := Success(tunnels[handle]);
      tunnels := tunnels - {handle};
    }
  }

  // ----- Runs -----

  ghost predicate Run<T>(states: seq<map<Handle, T>>, calls: seq<Call<T>>) {
    && |states| == |calls| + 1
    && states[0] == map[]
    && forall i :: 0 <= i < |calls| ==> CallStep(states[i], states[i + 1], calls[i])
  }

  /** The context of the last insertion at the handle, unless it was removed since. */
  function LastInserted<T>(calls: seq<Call<T>>, handle: Handle): Result<T> {
    if calls == [] then Failure
    else
      var last := calls[|calls| - 1];
      if last.Inserted? && last.issued == Success(handle) then Success(last.context)
      else if last.Removed? && last.handle == handle then Failure
      else LastInserted(calls[..|calls| - 1], handle)
  }

  lemma RunPrefix<T>(states: seq<map<Handle, T>>, calls: seq<Call<T>>, n: nat)
    requires Run(states, calls) && n <= |calls|
    ensures Run(states[..n + 1], calls[..n])
  {
    forall i | 0 <= i < n
      ensures CallStep(states[..n + 1][i], states[..n + 1][i + 1], calls[..n][i])
    {
      assert CallStep(states[i], states[i + 1], calls[i]);
    }
  }

  /** At every point of every run, a handle leads to the context that was last inserted under it. */
  lemma {:induction false} HandleLeadsToLastInserted<T>(states: seq<map<Handle, T>>, calls: seq<Call<T>>,
                                                        handle: Handle)
    requires Run(states, calls)
    ensures Lookup(states[|calls|], handle) == LastInserted(calls, handle)
  {
    if calls != [] {
      var n := |calls| - 1;
      RunPrefix(states, calls, n);
      HandleLeadsToLastInserted(states[..n + 1], calls[..n], handle);
      assert CallStep(states[n], states[n + 1], calls[n]);
    }
  }

  // ----- How far handles reach -----

  function Below(n: nat): (s: set<int>)
    ensures |s| == n
    ensures forall k :: k in s <==> 0 <= k < n
  {
    if n == 0 then {} else Below(n - 1) + {n - 1}
  }

  lemma {:induction false} SubsetSize<T>(s: set<T>, t: set<T>)
    requires s <= t
    ensures |s| <= |t|
    ensures |s| == |t| ==> s == t
  {
    if s != {} {
      var x :| x in s;
      SubsetSize(s - {x}, t - {x});
      assert s == s - {x} + {x} && t == t - {x} + {x};
    }
  }

  /** Pigeonhole: the least free handle is no larger than the number of contexts. */
  lemma LeastFreeBound<T>(m: map<Handle, T>, handle: nat)
    requires LeastFree(m, handle)
    ensures handle <= |m|
  {
    var keys: set<int> := set h | h in m.Keys;
    assert keys == m.Keys;
    SubsetSize(Below(handle), keys);
  }

  /** The largest number of contexts that were live at the same time. */
  function Peak<T>(states: seq<map<Handle, T>>): (peak: nat)
    ensures forall i :: 0 <= i < |states| ==> |states[i]| <= peak
  {
    if states == [] then 0
    else
      var last, before := |states[|states| - 1]|, Peak(states[..|states| - 1]);
      if last > before then last else before
  }

  lemma InsertedBelowPeak<T>(states: seq<map<Handle, T>>, calls: seq<Call<T>>, i: nat, handle: Handle)
    requires Run(states, calls)
    requires i < |calls| && calls[i].Inserted? && calls[i].issued == Success(handle)
    ensures 0 <= handle < |states[i + 1]| <= Peak(states)
    ensures handle !in states[i] && handle < MAX_INT32
  {
    assert CallStep(states[i], states[i + 1], calls[i]);
    LeastFreeBound(states[i], handle);
    assert states[i + 1].Keys == states[i].Keys + {handle};
  }

  ghost predicate WithinRange<T>(m: map<Handle, T>, bound: int) {
    forall h :: h in m ==> 0 <= h < bound
  }

  /** All live handles of every run are below the peak number of live contexts. */
  lemma {:induction false} LiveBelowPeak<T>(states: seq<map<Handle, T>>, calls: seq<Call<T>>)
    requires Run(states, calls)
    ensures WithinRange(states[|calls|], Peak(states)) && WithinRange(states[|calls|], MAX_INT32)
  {
    if calls != [] {
      var n := |calls| - 1;
      RunPrefix(states, calls, n);
      LiveBelowPeak(states[..n + 1], calls[..n]);
      assert CallStep(states[n], states[n + 1], calls[n]);
      assert states[..|states| - 1] == states[..n + 1];
      if calls[n].Inserted? && calls[n].issued.Success? {
        InsertedBelowPeak(states, calls, n, calls[n].issued.value);
      }
    }
  }

  /** An insertion fails exactly if all 2^31 - 1 handles are taken. */
  lemma FullExactly<T>(states: seq<map<Handle, T>>, calls: seq<Call<T>>, i: nat)
    requires Run(states, calls)
    requires i < |calls| && calls[i].Inserted?
    ensures calls[i].issued == Failure <==> |states[i]| == MAX_INT32
  {
    assert CallStep(states[i], states[i + 1], calls[i]);
    RunPrefix(states, calls, i);
    LiveBelowPeak(states[..i + 1], calls[..i]);
    var keys: set<int> := set h | h in states[i].Keys;
    assert keys == states[i].Keys;
    SubsetSize(keys, Below(MAX_INT32));
    if calls[i].issued == Failure {
      SubsetSize(Below(MAX_INT32), keys);
    }
  }
}
