/** Facts about sets and sequences that several modules use. */
module Collections {

  lemma {:induction false} SubsetSize<T>(a: set<T>, b: set<T>)
    requires a <= b
    ensures |a| <= |b|
  {
    if x :| x in a {
      SubsetSize(a - {x}, b - {x});
    }
  }

  lemma SameSize<T>(a: set<T>, b: set<T>)
    requires a <= b && |a| == |b|
    ensures a == b
  {
    if b - a != {} {
      var x :| x in b - a;
      SubsetSize(a, b - {x});
    } else {
      assert b <= a;
    }
  }

  /** A counter that starts at zero. */
  function Tally<K>(m: map<K, int>, k: K): int {
    if k in m then m[k] else 0
  }

  function Reversed<T>(s: seq<T>): seq<T> {
    if s == [] then [] else [s[|s| - 1]] + Reversed(s[..|s| - 1])
  }

  lemma ReversedSnoc<T>(s: seq<T>, x: T)
    ensures Reversed(s + [x]) == [x] + Reversed(s)
  {
    assert (s + [x])[..|s|] == s;
  }

  lemma {:induction false} ReversedLength<T>(s: seq<T>)
    ensures |Reversed(s)| == |s|
  {
    if s != [] {
      ReversedLength(s[..|s| - 1]);
    }
  }

  lemma {:induction false} ReversedInjective<T>(s: seq<T>, t: seq<T>)
    requires Reversed(s) == Reversed(t)
    ensures s == t
  {
    ReversedLength(s);
    ReversedLength(t);
    if s != [] {
      var front, other := s[..|s| - 1], t[..|t| - 1];
      assert Reversed(s)[1..] == Reversed(front) && Reversed(t)[1..] == Reversed(other);
      ReversedInjective(front, other);
      assert s == front + [s[|s| - 1]] && t == other + [t[|t| - 1]];
    }
  }
}
