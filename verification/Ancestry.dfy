/** Parent links of the process registry, and what it takes for them to form a forest. */
module Ancestry {
  import opened SplitTypes

  /** GetParentEntry: no parent when the parent id is zero or not registered. */
  function ParentOf(r: Registry, p: Pid): (parent: Option<Pid>)
    requires p in r
    ensures parent.Some? ==> parent.value in r && parent.value == r[p].parent
  {
    if r[p].parent == NO_PROCESS || r[p].parent !in r then None else Some(r[p].parent)
  }

  /** The process reached from `p` by following `n` parent links. */
  function NthAncestor(r: Registry, p: Pid, n: nat): (ancestor: Option<Pid>)
    requires p in r
    ensures ancestor.Some? ==> ancestor.value in r
    decreases n
  {
    if n == 0 then Some(p)
    else match ParentOf(r, p)
         case None => None
         case Some(parent) => NthAncestor(r, parent, n - 1)
  }

  /** `rank` shows that every parent link leads strictly downwards. */
  ghost predicate Ranks(rank: map<Pid, nat>, r: Registry) {
    forall p {:trigger p in r} :: p in r ==>
      p in rank && (ParentOf(r, p).Some? ==> ParentOf(r, p).value in rank && rank[ParentOf(r, p).value] < rank[p])
  }

  ghost predicate Acyclic(r: Registry) {
    exists rank :: Ranks(rank, r)
  }

  /** Every parent id is zero or registered. */
  ghost predicate Closed(r: Registry) {
    forall p :: p in r && r[p].parent != NO_PROCESS ==> r[p].parent in r
  }

  ghost predicate Forest(r: Registry) {
    Closed(r) && Acyclic(r)
  }

  /** Only the parent ids matter to ancestry. */
  ghost predicate SameParents(r: Registry, r': Registry) {
    r'.Keys == r.Keys && forall p :: p in r ==> r'[p].parent == r[p].parent
  }

  // ----- Walking upwards -----

  lemma {:induction false} NthAncestorSameParents(r: Registry, r': Registry, p: Pid, n: nat)
    requires p in r && SameParents(r, r')
    ensures NthAncestor(r', p, n) == NthAncestor(r, p, n)
    decreases n
  {
    if n > 0 && ParentOf(r, p).Some? {
      NthAncestorSameParents(r, r', ParentOf(r, p).value, n - 1);
    }
  }

  /** Ancestors of an ancestor. */
  lemma {:induction false} NthAncestorAdds(r: Registry, p: Pid, n: nat, m: nat)
    requires p in r && NthAncestor(r, p, n).Some?
    ensures NthAncestor(r, NthAncestor(r, p, n).value, m) == NthAncestor(r, p, n + m)
    decreases n
  {
    if n > 0 {
      NthAncestorAdds(r, ParentOf(r, p).value, n - 1, m);
    }
  }

  /** Whoever has a parent keeps it when an entry is added. */
  lemma {:induction false} AncestorsKept(r: Registry, p: Pid, e: Entry, q: Pid, n: nat)
    requires p !in r && q in r && NthAncestor(r, q, n).Some?
    ensures NthAncestor(r[p := e], q, n) == NthAncestor(r, q, n)
    decreases n
  {
    if n > 0 {
      AncestorsKept(r, p, e, ParentOf(r, q).value, n - 1);
    }
  }

  /** Ancestors have no larger rank. */
  lemma {:induction false} RankDecreases(rank: map<Pid, nat>, r: Registry, p: Pid, n: nat)
    requires Ranks(rank, r) && p in r && NthAncestor(r, p, n).Some?
    ensures p in rank && NthAncestor(r, p, n).value in rank
    ensures rank[NthAncestor(r, p, n).value] + n <= rank[p]
    decreases n
  {
    assert p in rank;
    if n > 0 {
      RankDecreases(rank, r, ParentOf(r, p).value, n - 1);
    }
  }

  /** Without cycles, every walk ends. */
  lemma AcyclicEnds(r: Registry, p: Pid)
    requires Acyclic(r) && p in r
    ensures exists n: nat :: NthAncestor(r, p, n).None?
  {
    var rank :| Ranks(rank, r);
    assert p in rank;
    if NthAncestor(r, p, rank[p] + 1).Some? {
      RankDecreases(rank, r, p, rank[p] + 1);
    }
    assert NthAncestor(r, p, rank[p] + 1).None?;
  }

  // ----- Forests -----

  lemma AcyclicSameParents(r: Registry, r': Registry)
    requires SameParents(r, r') && Acyclic(r)
    ensures Acyclic(r')
  {
    var rank :| Ranks(rank, r);
    assert forall p :: p in r' ==> ParentOf(r', p) == ParentOf(r, p);
    assert Ranks(rank, r');
  }

  /** DeleteEntry: the entry goes, and its children lose their parent. */
  function Removed(r: Registry, p: Pid): Registry {
    map q | q in r && q != p :: if r[q].parent == p then r[q].(parent := NO_PROCESS) else r[q]
  }

  /** A departure never closes a cycle. */
  lemma RemovedAcyclic(r: Registry, p: Pid)
    requires Acyclic(r)
    ensures Acyclic(Removed(r, p))
  {
    var rank :| Ranks(rank, r);
    assert Ranks(rank, Removed(r, p));
  }

  ghost predicate LinkedAt(r: Registry, q: Pid, p: Pid, n: nat)
    requires q in r
  {
    NthAncestor(r, q, n).Some? && r[NthAncestor(r, q, n).value].parent == p
  }

  /** The ancestry of `q` ends in a link to the process id `p`, which is not registered. */
  ghost predicate LeadsTo(r: Registry, q: Pid, p: Pid)
    requires q in r
  {
    p != NO_PROCESS && exists n: nat :: LinkedAt(r, q, p, n)
  }

  /** A process that arrives with this id and this parent would become its own ancestor. */
  ghost predicate ClosesCycle(r: Registry, p: Pid, parent: Pid) {
    && p != NO_PROCESS
    && (parent == p || (parent != NO_PROCESS && parent in r && LeadsTo(r, parent, p)))
  }

  /** A process leads wherever its parent leads. */
  lemma LeadsToStep(r: Registry, q: Pid, p: Pid)
    requires p !in r && q in r
    ensures LeadsTo(r, q, p)
            <==> p != NO_PROCESS && (r[q].parent == p || (ParentOf(r, q).Some? && LeadsTo(r, ParentOf(r, q).value, p)))
  {
    if p != NO_PROCESS {
      if r[q].parent == p {
        assert LinkedAt(r, q, p, 0);
      } else if ParentOf(r, q).Some? {
        var a := ParentOf(r, q).value;
        if n: nat :| LinkedAt(r, a, p, n) {
          assert LinkedAt(r, q, p, n + 1);
        }
        if n: nat :| LinkedAt(r, q, p, n) {
          assert LinkedAt(r, a, p, n - 1);
        }
      } else {
        forall n: nat
          ensures !LinkedAt(r, q, p, n)
        {
        }
      }
    }
  }

  /** The rank after an arrival: whoever leads to the new process moves above it. */
  ghost function RankAfter(rank: map<Pid, nat>, r: Registry, p: Pid, parent: Pid): map<Pid, nat>
    requires Ranks(rank, r)
  {
    var own := if parent != NO_PROCESS && parent in r then rank[parent] + 1 else 0;
    (map q | q in r :: if LeadsTo(r, q, p) then rank[q] + own + 1 else rank[q])[p := own]
  }

  /** An arrival keeps the registry acyclic exactly when it does not close a cycle. */
  lemma AddedAcyclic(r: Registry, p: Pid, e: Entry)
    requires Acyclic(r) && p !in r
    ensures Acyclic(r[p := e]) <==> !ClosesCycle(r, p, e.parent)
  {
    if ClosesCycle(r, p, e.parent) {
      ClosedCycle(r, p, e);
    } else {
      var rank :| Ranks(rank, r);
      AddedRanks(rank, r, p, e);
    }
  }

  lemma AddedRanks(rank: map<Pid, nat>, r: Registry, p: Pid, e: Entry)
    requires Ranks(rank, r) && p !in r && !ClosesCycle(r, p, e.parent)
    ensures Ranks(RankAfter(rank, r, p, e.parent), r[p := e])
  {
    var r', rank' := r[p := e], RankAfter(rank, r, p, e.parent);
    forall q | q in r'
      ensures q in rank'
      ensures ParentOf(r', q).Some? ==> ParentOf(r', q).value in rank' && rank'[ParentOf(r', q).value] < rank'[q]
    {
      if q in r {
        LeadsToStep(r, q, p);
      }
    }
  }

  lemma ClosedCycle(r: Registry, p: Pid, e: Entry)
    requires p !in r && ClosesCycle(r, p, e.parent)
    ensures !Acyclic(r[p := e])
  {
    var r' := r[p := e];
    if e.parent == p {
      SelfParentCyclic(r', p);
    } else {
      var n: nat :| LinkedAt(r, e.parent, p, n);
      AncestorsKept(r, p, e, e.parent, n);
      var a := NthAncestor(r, e.parent, n).value;
      assert p in r' && a in r' && ParentOf(r', a) == Some(p) && ParentOf(r', p) == Some(e.parent);
      forall rank
        ensures !Ranks(rank, r')
      {
        if Ranks(rank, r') {
          RankDecreases(rank, r', e.parent, n);
        }
      }
    }
  }

  lemma SelfParentCyclic(r: Registry, p: Pid)
    requires p in r && ParentOf(r, p) == Some(p)
    ensures !Acyclic(r)
  {
    forall rank
      ensures !Ranks(rank, r)
    {
    }
  }
}
