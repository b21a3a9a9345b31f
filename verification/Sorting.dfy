/** The library sort the core calls (`sort`, `sort_by`, `sort_by_key`): stable, given
    here as insertion sort, with the facts its callers need. */
module Sorting {

  /** Names the middle element of a transitivity step, so that the step is taken only
      where a proof asks for it. */
  ghost predicate Via<T>(a: T, b: T, c: T) {
    true
  }

  ghost predicate Transitive<T(!new)>(r: (T, T) -> bool) {
    forall a, b, c {:trigger Via(a, b, c)} :: r(a, b) && r(b, c) ==> r(a, c)
  }

  ghost predicate TotalPreorder<T(!new)>(le: (T, T) -> bool) {
    (forall a, b :: le(a, b) || le(b, a)) && Transitive(le)
  }

  ghost predicate Sorted<T>(s: seq<T>, le: (T, T) -> bool) {
    forall i, j :: 0 <= i < j < |s| ==> le(s[i], s[j])
  }

  /** Put `x` before the first element that is strictly greater. */
  function Insert<T>(x: T, s: seq<T>, le: (T, T) -> bool): seq<T> {
    if s == [] || !le(s[0], x) then [x] + s else [s[0]] + Insert(x, s[1..], le)
  }

  function Sort<T>(s: seq<T>, le: (T, T) -> bool): seq<T> {
    if s == [] then [] else Insert(s[|s| - 1], Sort(s[..|s| - 1], le), le)
  }

  lemma {:induction false} InsertCounts<T>(x: T, s: seq<T>, le: (T, T) -> bool)
    ensures multiset(Insert(x, s, le)) == multiset(s) + multiset{x}
  {
    if s != [] && le(s[0], x) {
      InsertCounts(x, s[1..], le);
      assert s == [s[0]] + s[1..];
    }
  }

  lemma InsertMembers<T>(x: T, s: seq<T>, le: (T, T) -> bool)
    ensures forall y :: y in Insert(x, s, le) <==> y in s || y == x
  {
    InsertCounts(x, s, le);
    forall y ensures y in Insert(x, s, le) <==> y in s || y == x {
      assert y in Insert(x, s, le) <==> y in multiset(Insert(x, s, le));
      assert y in s <==> y in multiset(s);
    }
  }

  lemma {:induction false} InsertSorts<T(!new)>(x: T, s: seq<T>, le: (T, T) -> bool)
    requires TotalPreorder(le) && Sorted(s, le)
    ensures Sorted(Insert(x, s, le), le)
  {
    if s == [] {
    } else if !le(s[0], x) {
      forall i | 0 <= i < |s| ensures le(x, s[i]) {
        assert Via(x, s[0], s[i]);
      }
    } else {
      var r := Insert(x, s[1..], le);
      InsertSorts(x, s[1..], le);
      InsertMembers(x, s[1..], le);
      forall i | 0 <= i < |r| ensures le(s[0], r[i]) {
        assert r[i] in s[1..] || r[i] == x;
      }
    }
  }

  lemma {:induction false} SortCounts<T>(s: seq<T>, le: (T, T) -> bool)
    ensures multiset(Sort(s, le)) == multiset(s)
  {
    if s != [] {
      var front, last := s[..|s| - 1], s[|s| - 1];
      SortCounts(front, le);
      InsertCounts(last, Sort(front, le), le);
      assert s == front + [last];
    }
  }

  lemma {:induction false} SortSorts<T(!new)>(s: seq<T>, le: (T, T) -> bool)
    requires TotalPreorder(le)
    ensures Sorted(Sort(s, le), le)
  {
    if s != [] {
      SortSorts(s[..|s| - 1], le);
      InsertSorts(s[|s| - 1], Sort(s[..|s| - 1], le), le);
    }
  }

  lemma SortOk<T(!new)>(s: seq<T>, le: (T, T) -> bool)
    requires TotalPreorder(le)
    ensures Sorted(Sort(s, le), le)
    ensures multiset(Sort(s, le)) == multiset(s)
  {
    SortSorts(s, le);
    SortCounts(s, le);
  }

  lemma SortMembers<T>(s: seq<T>, le: (T, T) -> bool, x: T)
    requires multiset(Sort(s, le)) == multiset(s)
    ensures x in Sort(s, le) <==> x in s
  {
    assert x in s <==> x in multiset(s);
    assert x in Sort(s, le) <==> x in multiset(Sort(s, le));
  }

  /** Sorting a list without repetitions leaves no two equal elements. */
  lemma SortDistinct<T(!new)>(s: seq<T>, le: (T, T) -> bool, i: nat, j: nat)
    requires multiset(Sort(s, le)) == multiset(s) && i < j < |Sort(s, le)|
    requires forall i, j :: 0 <= i < j < |s| ==> s[i] != s[j]
    ensures Sort(s, le)[i] != Sort(s, le)[j]
  {
    var r := Sort(s, le);
    DistinctCounts(s, r[i]);
    if r[i] == r[j] {
      TwiceCounts(r, i, j);
    }
  }

  lemma {:induction false} DistinctCounts<T>(s: seq<T>, x: T)
    requires forall i, j :: 0 <= i < j < |s| ==> s[i] != s[j]
    ensures multiset(s)[x] <= 1
  {
    if s != [] {
      var front := s[..|s| - 1];
      DistinctCounts(front, x);
      assert s == front + [s[|s| - 1]];
      if s[|s| - 1] == x {
        assert x !in front;
        assert x !in multiset(front);
      }
    }
  }

  lemma TwiceCounts<T>(s: seq<T>, i: nat, j: nat)
    requires i < j < |s| && s[i] == s[j]
    ensures multiset(s)[s[i]] >= 2
  {
    assert s == s[..j] + [s[j]] + s[j + 1..];
    assert s[..j][i] == s[i];
    assert s[i] in multiset(s[..j]);
  }

  // ------------------------------------------------------------ strict sortedness

  ghost predicate Asymmetric<T(!new)>(lt: (T, T) -> bool) {
    forall a, b :: !(lt(a, b) && lt(b, a))
  }

  ghost predicate Ascending<T>(s: seq<T>, lt: (T, T) -> bool) {
    forall i, j :: 0 <= i < j < |s| ==> lt(s[i], s[j])
  }

  lemma HasElement<T>(s: seq<T>)
    requires s != []
    ensures exists x :: x in s
  {
    assert s[0] in s;
  }

  lemma AscendingHead<T(!new)>(s: seq<T>, lt: (T, T) -> bool, x: T)
    requires Asymmetric(lt) && Ascending(s, lt) && s != []
    ensures x in s[1..] <==> x in s && x != s[0]
    ensures x in s && x != s[0] ==> lt(s[0], x)
  {
  }

  /** A strictly ascending list is determined by its elements. */
  lemma {:induction false} AscendingUnique<T(!new)>(a: seq<T>, b: seq<T>, lt: (T, T) -> bool)
    requires Asymmetric(lt) && Ascending(a, lt) && Ascending(b, lt)
    requires forall x :: x in a <==> x in b
    ensures a == b
  {
    if a == [] {
      if b != [] {
        HasElement(b);
      }
    } else {
      assert a[0] in a;
      assert b != [];
      assert b[0] in b;
      AscendingHead(a, lt, b[0]);
      AscendingHead(b, lt, a[0]);
      assert a[0] == b[0];
      forall x ensures x in a[1..] <==> x in b[1..] {
        AscendingHead(a, lt, x);
        AscendingHead(b, lt, x);
      }
      AscendingUnique(a[1..], b[1..], lt);
      assert a == [a[0]] + a[1..] && b == [b[0]] + b[1..];
    }
  }
}
