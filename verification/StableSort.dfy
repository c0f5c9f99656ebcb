/** What a stable sort makes of a sequence, whatever its algorithm. */
module StableSort {

  ghost predicate TotalPreorder<T(!new)>(le: (T, T) -> bool) {
    && (forall x, y {:trigger le(x, y)} :: le(x, y) || le(y, x))
    && (forall x, y, z {:trigger le(x, y), le(y, z)} :: le(x, y) && le(y, z) ==> le(x, z))
  }

  ghost predicate Sorted<T>(le: (T, T) -> bool, s: seq<T>) {
    forall i, j :: 0 <= i < j < |s| ==> le(s[i], s[j])
  }

  /** Puts `x` before all elements that are not smaller. */
  function Insert<T>(le: (T, T) -> bool, x: T, s: seq<T>): (r: seq<T>)
    ensures |r| == |s| + 1
  {
    if s == [] || le(x, s[0]) then [x] + s else [s[0]] + Insert(le, x, s[1..])
  }

  function Sort<T>(le: (T, T) -> bool, s: seq<T>): (r: seq<T>)
    ensures |r| == |s|
  {
    if s == [] then [] else Insert(le, s[0], Sort(le, s[1..]))
  }

  /** The elements that compare equal to `x`, in order. */
  function Equals<T>(le: (T, T) -> bool, x: T, s: seq<T>): seq<T> {
    if s == [] then []
    else (if le(x, s[0]) && le(s[0], x) then [s[0]] else []) + Equals(le, x, s[1..])
  }

  lemma {:induction false} InsertMultiset<T>(le: (T, T) -> bool, x: T, s: seq<T>)
    ensures multiset(Insert(le, x, s)) == multiset{x} + multiset(s)
  {
    if s != [] && !le(x, s[0]) {
      InsertMultiset(le, x, s[1..]);
      assert s == [s[0]] + s[1..];
    }
  }

  lemma {:induction false} SortMultiset<T>(le: (T, T) -> bool, s: seq<T>)
    ensures multiset(Sort(le, s)) == multiset(s)
  {
    if s != [] {
      SortMultiset(le, s[1..]);
      InsertMultiset(le, s[0], Sort(le, s[1..]));
      assert s == [s[0]] + s[1..];
    }
  }

  lemma {:induction false} InsertSorted<T(!new)>(le: (T, T) -> bool, x: T, s: seq<T>)
    requires TotalPreorder(le) && Sorted(le, s)
    ensures Sorted(le, Insert(le, x, s))
  {
    if s != [] && !le(x, s[0]) {
      InsertSorted(le, x, s[1..]);
      InsertMultiset(le, x, s[1..]);
      var r := Insert(le, x, s[1..]);
      forall i | 0 <= i < |r|
        ensures le(s[0], r[i])
      {
        assert r[i] in multiset(r);
        if r[i] != x {
          assert r[i] in multiset(s[1..]);
          var j :| 0 <= j < |s[1..]| && s[1..][j] == r[i];
          assert s[j + 1] == r[i];
        }
      }
    }
  }

  lemma {:induction false} SortSorted<T(!new)>(le: (T, T) -> bool, s: seq<T>)
    requires TotalPreorder(le)
    ensures Sorted(le, Sort(le, s))
  {
    if s != [] {
      SortSorted(le, s[1..]);
      InsertSorted(le, s[0], Sort(le, s[1..]));
    }
  }

  /** Inserting an element leaves the order of equal ones alone. */
  lemma {:induction false} InsertEquals<T(!new)>(le: (T, T) -> bool, x: T, s: seq<T>, y: T)
    requires TotalPreorder(le)
    ensures Equals(le, y, Insert(le, x, s)) == Equals(le, y, [x] + s)
  {
    assert ([x] + s)[1..] == s;
    if s != [] && !le(x, s[0]) {
      InsertEquals(le, x, s[1..], y);
      assert ([x] + s[1..])[1..] == s[1..];
      assert Insert(le, x, s)[1..] == Insert(le, x, s[1..]);
    }
  }

  /** The sort is stable. */
  lemma {:induction false} SortStable<T(!new)>(le: (T, T) -> bool, s: seq<T>, y: T)
    requires TotalPreorder(le)
    ensures Equals(le, y, Sort(le, s)) == Equals(le, y, s)
  {
    if s != [] {
      SortStable(le, s[1..], y);
      InsertEquals(le, s[0], Sort(le, s[1..]), y);
      assert ([s[0]] + Sort(le, s[1..]))[1..] == Sort(le, s[1..]);
    }
  }

  lemma {:induction false} EqualsMember<T(!new)>(le: (T, T) -> bool, x: T, s: seq<T>)
    requires TotalPreorder(le)
    ensures x in s ==> Equals(le, x, s) != []
    ensures Equals(le, x, s) != [] ==> exists i :: 0 <= i < |s| && le(x, s[i]) && le(s[i], x)
  {
    if s != [] {
      EqualsMember(le, x, s[1..]);
      assert le(x, x);
      if Equals(le, x, s[1..]) != [] {
        var i :| 0 <= i < |s[1..]| && le(x, s[1..][i]) && le(s[1..][i], x);
        assert s[i + 1] == s[1..][i];
      }
    }
  }

  lemma SomeEquals<T(!new)>(le: (T, T) -> bool, s: seq<T>)
    requires TotalPreorder(le)
    ensures s != [] ==> exists x :: Equals(le, x, s) != []
  {
    if s != [] {
      EqualsMember(le, s[0], s);
    }
  }

  /** There is only one way to sort stably: any sorted sequence with the same equal elements in the
      same order is the sorted one. */
  lemma {:induction false} SortedUnique<T(!new)>(le: (T, T) -> bool, r: seq<T>, s: seq<T>)
    requires TotalPreorder(le) && Sorted(le, r) && Sorted(le, s)
    requires forall x {:trigger Equals(le, x, r)} {:trigger Equals(le, x, s)} :: Equals(le, x, r) == Equals(le, x, s)
    ensures r == s
  {
    if r == [] {
      SomeEquals(le, s);
    } else {
      EqualsMember(le, r[0], r);
      EqualsMember(le, r[0], s);
      assert Equals(le, r[0], r) == Equals(le, r[0], s);
      EqualsMember(le, s[0], s);
      EqualsMember(le, s[0], r);
      assert Equals(le, s[0], r) == Equals(le, s[0], s);
      var i :| 0 <= i < |s| && le(r[0], s[i]) && le(s[i], r[0]);
      var j :| 0 <= j < |r| && le(s[0], r[j]) && le(r[j], s[0]);
      assert le(s[0], s[i]) && le(r[0], r[j]);
      assert le(r[0], s[0]) && le(s[0], r[0]);
      assert Equals(le, r[0], r)[0] == r[0] && Equals(le, r[0], s)[0] == s[0];
      forall x
        ensures Equals(le, x, r[1..]) == Equals(le, x, s[1..])
      {
        assert Equals(le, x, r) == Equals(le, x, s);
        var first := if le(x, r[0]) && le(r[0], x) then [r[0]] else [];
        assert Equals(le, x, r) == first + Equals(le, x, r[1..]);
        assert Equals(le, x, s) == first + Equals(le, x, s[1..]);
        assert Equals(le, x, r[1..]) == Equals(le, x, r)[|first|..];
        assert Equals(le, x, s[1..]) == Equals(le, x, s)[|first|..];
      }
      SortedUnique(le, r[1..], s[1..]);
    }
  }

  ghost predicate NoDuplicates<T(!new)>(s: seq<T>) {
    forall x {:trigger multiset(s)[x]} :: multiset(s)[x] <= 1
  }

  lemma {:induction false} NoDuplicatesIndexed<T(!new)>(s: seq<T>)
    ensures NoDuplicates(s) <==> forall i, j :: 0 <= i < j < |s| ==> s[i] != s[j]
  {
    if s != [] {
      var last, init := s[|s| - 1], s[..|s| - 1];
      NoDuplicatesIndexed(init);
      assert s == init + [last];
      forall x
        ensures multiset(s)[x] == multiset(init)[x] + if x == last then 1 else 0
      {
      }
      if NoDuplicates(s) {
        assert forall x :: multiset(init)[x] <= multiset(s)[x];
        assert multiset(s)[last] <= 1;
        assert last !in multiset(init);
      } else {
        var x :| multiset(s)[x] > 1;
        if multiset(init)[x] <= 1 {
          assert x == last && x in multiset(init);
        }
      }
    }
  }

  /** Sorting keeps the elements, and keeps them distinct. */
  lemma SortKeeps<T(!new)>(le: (T, T) -> bool, s: seq<T>)
    ensures forall x :: x in Sort(le, s) <==> x in s
    ensures (forall i, j :: 0 <= i < j < |s| ==> s[i] != s[j])
            ==> forall i, j :: 0 <= i < j < |s| ==> Sort(le, s)[i] != Sort(le, s)[j]
  {
    SortMultiset(le, s);
    NoDuplicatesIndexed(s);
    NoDuplicatesIndexed(Sort(le, s));
    forall x
      ensures x in Sort(le, s) <==> x in s
    {
      assert x in multiset(Sort(le, s)) <==> x in multiset(s);
    }
  }

  // ----- Filtering and sorting -----

  function Filter<T>(p: T -> bool, s: seq<T>): seq<T> {
    if s == [] then [] else (if p(s[0]) then [s[0]] else []) + Filter(p, s[1..])
  }

  lemma Regroup<T>(s: seq<T>, t: seq<T>, u: seq<T>)
    ensures s + (t + u) == (s + t) + u
  {
  }

  lemma {:induction false} FilterAppend<T>(p: T -> bool, s: seq<T>, t: seq<T>)
    ensures Filter(p, s + t) == Filter(p, s) + Filter(p, t)
  {
    if s == [] {
      assert s + t == t;
    } else {
      FilterAppend(p, s[1..], t);
      assert (s + t)[1..] == s[1..] + t;
      Regroup(if p(s[0]) then [s[0]] else [], Filter(p, s[1..]), Filter(p, t));
    }
  }

  lemma {:induction false} FilterCount<T>(p: T -> bool, s: seq<T>, x: T)
    ensures multiset(Filter(p, s))[x] == if p(x) then multiset(s)[x] else 0
  {
    if s != [] {
      FilterCount(p, s[1..], x);
      assert s == [s[0]] + s[1..];
    }
  }

  lemma FilterMember<T>(p: T -> bool, s: seq<T>, x: T)
    ensures x in Filter(p, s) <==> x in s && p(x)
  {
    FilterCount(p, s, x);
    assert x in s <==> x in multiset(s);
    assert x in Filter(p, s) <==> x in multiset(Filter(p, s));
  }

  lemma {:induction false} FilterEquals<T>(le: (T, T) -> bool, p: T -> bool, s: seq<T>, y: T)
    ensures Equals(le, y, Filter(p, s)) == Filter(p, Equals(le, y, s))
  {
    if s != [] {
      FilterEquals(le, p, s[1..], y);
      if p(s[0]) {
        assert Filter(p, s)[1..] == Filter(p, s[1..]);
      } else {
        assert Filter(p, s) == Filter(p, s[1..]);
      }
      if le(y, s[0]) && le(s[0], y) {
        assert Equals(le, y, s)[1..] == Equals(le, y, s[1..]);
        assert Filter(p, Equals(le, y, s))
               == (if p(s[0]) then [s[0]] else []) + Filter(p, Equals(le, y, s[1..]));
      } else {
        assert Equals(le, y, s) == Equals(le, y, s[1..]);
      }
    }
  }

  lemma {:induction false} FilterSorted<T>(le: (T, T) -> bool, p: T -> bool, s: seq<T>)
    requires Sorted(le, s)
    ensures Sorted(le, Filter(p, s))
  {
    if s != [] {
      FilterSorted(le, p, s[1..]);
      var rest := Filter(p, s[1..]);
      forall i | 0 <= i < |rest|
        ensures le(s[0], rest[i])
      {
        FilterMember(p, s[1..], rest[i]);
        var j :| 0 <= j < |s[1..]| && s[1..][j] == rest[i];
        assert s[j + 1] == rest[i];
      }
    }
  }

  /** It makes no difference whether a sequence is filtered before or after a stable sort. */
  lemma FilterCommutesWithSort<T(!new)>(le: (T, T) -> bool, p: T -> bool, s: seq<T>)
    requires TotalPreorder(le)
    ensures Filter(p, Sort(le, s)) == Sort(le, Filter(p, s))
  {
    var r, t := Filter(p, Sort(le, s)), Sort(le, Filter(p, s));
    SortSorted(le, s);
    FilterSorted(le, p, Sort(le, s));
    SortSorted(le, Filter(p, s));
    forall y
      ensures Equals(le, y, r) == Equals(le, y, t)
    {
      FilterEquals(le, p, Sort(le, s), y);
      SortStable(le, s, y);
      FilterEquals(le, p, s, y);
      SortStable(le, Filter(p, s), y);
    }
    SortedUnique(le, r, t);
  }

  /** Two orders that agree on the elements of a sequence sort it the same way. */
  lemma {:induction false} SortAgrees<T(!new)>(le: (T, T) -> bool, le': (T, T) -> bool, s: seq<T>)
    requires forall i, j :: 0 <= i < |s| && 0 <= j < |s| ==> le(s[i], s[j]) == le'(s[i], s[j])
    ensures Sort(le, s) == Sort(le', s)
  {
    if s != [] {
      var rest := s[1..];
      SortAgrees(le, le', rest);
      SortKeeps(le, rest);
      forall i | 0 <= i < |rest|
        ensures le(s[0], Sort(le, rest)[i]) == le'(s[0], Sort(le, rest)[i])
      {
        assert Sort(le, rest)[i] in rest;
        var j :| 0 <= j < |rest| && rest[j] == Sort(le, rest)[i];
        assert s[j + 1] == rest[j];
      }
      InsertAgrees(le, le', s[0], Sort(le, rest));
    }
  }

  lemma {:induction false} InsertAgrees<T>(le: (T, T) -> bool, le': (T, T) -> bool, x: T, s: seq<T>)
    requires forall i :: 0 <= i < |s| ==> le(x, s[i]) == le'(x, s[i])
    ensures Insert(le, x, s) == Insert(le', x, s)
  {
    if s != [] && !le(x, s[0]) {
      InsertAgrees(le, le', x, s[1..]);
    }
  }
}
