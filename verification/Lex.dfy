/** The order of Rust strings, and `sort` followed by `dedup` over it. */
module Lex {
  import opened Sorting

  predicate StringLe(a: string, b: string) {
    a == [] || (b != [] && (a[0] < b[0] || (a[0] == b[0] && StringLe(a[1..], b[1..]))))
  }

  predicate StringLt(a: string, b: string) {
    StringLe(a, b) && a != b
  }

  lemma {:induction false} StringLeTotal(a: string, b: string)
    ensures StringLe(a, b) || StringLe(b, a)
    ensures StringLe(a, b) && StringLe(b, a) ==> a == b
  {
    if a != [] && b != [] && a[0] == b[0] {
      StringLeTotal(a[1..], b[1..]);
      assert a == [a[0]] + a[1..] && b == [b[0]] + b[1..];
    }
  }

  lemma {:induction false} StringLeTrans(a: string, b: string, c: string)
    requires StringLe(a, b) && StringLe(b, c)
    ensures StringLe(a, c)
  {
    if a != [] && a[0] == b[0] && b[0] == c[0] {
      StringLeTrans(a[1..], b[1..], c[1..]);
    }
  }

  lemma StringLeTransitive()
    ensures Transitive(StringLe)
  {
    forall a, b, c | StringLe(a, b) && StringLe(b, c) ensures Via(a, b, c) && StringLe(a, c) {
      StringLeTrans(a, b, c);
    }
  }

  lemma StringLeComparable()
    ensures forall a, b :: StringLe(a, b) || StringLe(b, a)
  {
    forall a, b ensures StringLe(a, b) || StringLe(b, a) {
      StringLeTotal(a, b);
    }
  }

  lemma StringLtAsymmetric()
    ensures Asymmetric(StringLt)
  {
    forall a, b ensures !(StringLt(a, b) && StringLt(b, a)) {
      StringLeTotal(a, b);
    }
  }

  lemma StringOrder()
    ensures TotalPreorder(StringLe)
  {
    StringLeTransitive();
    StringLeComparable();
  }

  /** `Vec::dedup`: drop an element equal to its predecessor. */
  function Dedup(s: seq<string>): seq<string> {
    if |s| <= 1 then s
    else if s[|s| - 1] == s[|s| - 2] then Dedup(s[..|s| - 1])
    else Dedup(s[..|s| - 1]) + [s[|s| - 1]]
  }

  lemma {:induction false} DedupOk(s: seq<string>)
    requires Sorted(s, StringLe)
    ensures Ascending(Dedup(s), StringLt)
    ensures forall x :: x in Dedup(s) <==> x in s
  {
    if |s| > 1 {
      var n := |s| - 1;
      var front := s[..n];
      DedupOk(front);
      assert s == front + [s[n]];
      if s[n] == s[n - 1] {
        assert front[n - 1] == s[n];
      } else {
        forall i | 0 <= i < |Dedup(front)| ensures StringLt(Dedup(front)[i], s[n]) {
          assert Dedup(front)[i] in front;
          var k :| 0 <= k < n && s[k] == Dedup(front)[i];
          if k < n - 1 {
            assert StringLe(s[k], s[n - 1]) && StringLe(s[n - 1], s[n]);
            StringLeTotal(s[n - 1], s[n]);
          }
        }
      }
    }
  }

  function SortDedup(s: seq<string>): seq<string> {
    Dedup(Sort(s, StringLe))
  }

  /** Sorting and deduplicating leaves the strictly ascending list of the elements. */
  lemma SortDedupOk(s: seq<string>)
    ensures Ascending(SortDedup(s), StringLt)
    ensures forall x :: x in SortDedup(s) <==> x in s
  {
    StringOrder();
    SortOk(s, StringLe);
    DedupOk(Sort(s, StringLe));
    forall x ensures x in SortDedup(s) <==> x in s {
      SortMembers(s, StringLe, x);
    }
  }

  lemma AscendingStringsUnique(a: seq<string>, b: seq<string>)
    requires Ascending(a, StringLt) && Ascending(b, StringLt)
    ensures a == b <==> forall x :: x in a <==> x in b
  {
    StringLtAsymmetric();
    if forall x :: x in a <==> x in b {
      AscendingUnique(a, b, StringLt);
    }
  }

  /** The order is by the first difference, a prefix coming first. */
  lemma {:induction false} StringOrderIff(a: string, b: string, k: nat)
    requires k <= |a| && k <= |b| && a[..k] == b[..k] && (k == |a| || k == |b| || a[k] != b[k])
    ensures StringLe(a, b) <==> k == |a| || (k < |b| && a[k] < b[k])
  {
    if k > 0 {
      assert a[0] == a[..k][0] == b[..k][0] == b[0];
      assert a[1..][..k - 1] == a[..k][1..] && b[1..][..k - 1] == b[..k][1..];
      StringOrderIff(a[1..], b[1..], k - 1);
    }
  }
}
