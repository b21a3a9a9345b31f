/** String helpers the parsers share.  Text is a sequence of characters; white space
    is the ASCII white space of Rust's `char::is_whitespace`. */
module Text {
  predicate IsSpace(c: char) {
    c == ' ' || ('\t' <= c <= '\r')
  }

  function TrimStart(s: string): string {
    if s != [] && IsSpace(s[0]) then TrimStart(s[1..]) else s
  }

  function TrimEnd(s: string): string {
    if s != [] && IsSpace(s[|s| - 1]) then TrimEnd(s[..|s| - 1]) else s
  }

  function Trim(s: string): string {
    TrimEnd(TrimStart(s))
  }

  lemma {:induction false} TrimStartSnoc(s: string, c: char)
    requires IsSpace(c)
    ensures TrimStart(s + [c]) == if TrimStart(s) == [] then [] else TrimStart(s) + [c]
  {
    if s == [] {
      assert s + [c] == [c] && [c][1..] == [];
    } else if IsSpace(s[0]) {
      TrimStartSnoc(s[1..], c);
      assert (s + [c])[1..] == s[1..] + [c];
    }
  }

  lemma TrimSnoc(s: string, c: char)
    requires IsSpace(c)
    ensures Trim(s + [c]) == Trim(s)
  {
    TrimStartSnoc(s, c);
    var t := TrimStart(s);
    assert (t + [c])[..|t|] == t;
  }

  /** Index of the first character of `s` that satisfies `p`, or `|s|`. */
  function IndexWhere(s: string, p: char -> bool): (i: nat)
    ensures i <= |s|
    ensures i < |s| ==> p(s[i])
    ensures forall j :: 0 <= j < i ==> !p(s[j])
  {
    if s == [] || p(s[0]) then 0 else 1 + IndexWhere(s[1..], p)
  }

  function IndexOf(s: string, c: char): (i: nat)
    ensures i <= |s|
    ensures i < |s| ==> s[i] == c
    ensures forall j :: 0 <= j < i ==> s[j] != c
  {
    IndexWhere(s, x => x == c)
  }

  lemma {:induction false} IndexWhereConcat(a: string, b: string, p: char -> bool)
    ensures IndexWhere(a, p) < |a| ==> IndexWhere(a + b, p) == IndexWhere(a, p)
    ensures IndexWhere(a, p) == |a| ==> IndexWhere(a + b, p) == |a| + IndexWhere(b, p)
  {
    if a == [] {
      assert a + b == b;
    } else if !p(a[0]) {
      IndexWhereConcat(a[1..], b, p);
      assert (a + b)[1..] == a[1..] + b;
    }
  }

  function LowerChar(c: char): char {
    if 'A' <= c <= 'Z' then c - 'A' + 'a' else c
  }

  function Lower(s: string): string {
    seq(|s|, i requires 0 <= i < |s| => LowerChar(s[i]))
  }

  /** `str::split(sep)`: the pieces between separators, never an empty list. */
  function Split(s: string, sep: char): (parts: seq<string>)
    ensures |parts| >= 1
  {
    if s == [] then [[]] else Glue(s[0], sep, Split(s[1..], sep))
  }

  function Glue(c: char, sep: char, rest: seq<string>): (parts: seq<string>)
    requires rest != []
    ensures parts != []
  {
    if c == sep then [[]] + rest else [[c] + rest[0]] + rest[1..]
  }

  function Join(parts: seq<string>, sep: char): string {
    if parts == [] then [] else if |parts| == 1 then parts[0] else parts[0] + [sep] + Join(parts[1..], sep)
  }

  lemma JoinCons(first: string, rest: seq<string>, sep: char)
    requires rest != []
    ensures Join([first] + rest, sep) == first + [sep] + Join(rest, sep)
  {
  }

  lemma {:induction false} SplitPieces(s: string, sep: char)
    ensures forall k :: 0 <= k < |Split(s, sep)| ==> sep !in Split(s, sep)[k]
  {
    if s != [] {
      SplitPieces(s[1..], sep);
    }
  }

  lemma JoinFirst(c: char, rest: seq<string>, sep: char)
    requires rest != []
    ensures Join([[c] + rest[0]] + rest[1..], sep) == [c] + Join(rest, sep)
  {
    var glued := [[c] + rest[0]] + rest[1..];
    assert glued[1..] == rest[1..];
    if |rest| > 1 {
      assert [c] + rest[0] + [sep] + Join(rest[1..], sep) == [c] + (rest[0] + [sep] + Join(rest[1..], sep));
    }
  }

  /** Joining the pieces gives the text back. */
  lemma {:induction false} JoinSplit(s: string, sep: char)
    ensures Join(Split(s, sep), sep) == s
  {
    if s != [] {
      JoinSplit(s[1..], sep);
      if s[0] == sep {
        JoinCons([], Split(s[1..], sep), sep);
      } else {
        JoinFirst(s[0], Split(s[1..], sep), sep);
      }
    }
  }

  lemma {:induction false} SplitPrefix(piece: string, rest: string, sep: char)
    requires sep !in piece
    ensures Split(piece, sep) == [piece]
    ensures Split(piece + [sep] + rest, sep) == [piece] + Split(rest, sep)
  {
    var s := piece + [sep] + rest;
    if piece == [] {
      assert s[1..] == rest;
    } else {
      SplitPrefix(piece[1..], rest, sep);
      assert s[1..] == piece[1..] + [sep] + rest;
      assert [piece[0]] + piece[1..] == piece;
    }
  }

  lemma GlueConcat(c: char, sep: char, x: seq<string>, y: seq<string>)
    requires x != []
    ensures Glue(c, sep, x + y) == Glue(c, sep, x) + y
  {
    if c != sep {
      assert (x + y)[1..] == x[1..] + y;
    }
  }

  lemma {:induction false} SplitConcat(a: string, b: string, sep: char)
    ensures Split(a + [sep] + b, sep) == Split(a, sep) + Split(b, sep)
  {
    var s := a + [sep] + b;
    if a == [] {
      assert s[1..] == b;
    } else {
      SplitConcat(a[1..], b, sep);
      assert s[1..] == a[1..] + [sep] + b;
      GlueConcat(a[0], sep, Split(a[1..], sep), Split(b, sep));
    }
  }

  lemma {:induction false} SplitJoin(parts: seq<string>, sep: char)
    requires parts != [] && forall k :: 0 <= k < |parts| ==> sep !in parts[k]
    ensures Split(Join(parts, sep), sep) == parts
  {
    assert sep !in parts[0];
    if |parts| == 1 {
      SplitPrefix(parts[0], [], sep);
    } else {
      var rest := parts[1..];
      SplitJoin(rest, sep);
      assert parts == [parts[0]] + rest;
      JoinCons(parts[0], rest, sep);
      SplitPrefix(parts[0], Join(rest, sep), sep);
    }
  }

  /** `iter().flat_map(f)`. */
  function FlatMap<A, B>(f: A -> seq<B>, s: seq<A>): seq<B> {
    if s == [] then [] else f(s[0]) + FlatMap(f, s[1..])
  }

  lemma {:induction false} FlatMapConcat<A, B>(f: A -> seq<B>, a: seq<A>, b: seq<A>)
    ensures FlatMap(f, a + b) == FlatMap(f, a) + FlatMap(f, b)
  {
    if a == [] {
      assert a + b == b;
    } else {
      FlatMapConcat(f, a[1..], b);
      assert (a + b)[1..] == a[1..] + b;
      ConcatAssoc(f(a[0]), FlatMap(f, a[1..]), FlatMap(f, b));
    }
  }

  lemma ConcatAssoc<T>(a: seq<T>, b: seq<T>, c: seq<T>)
    ensures a + b + c == a + (b + c)
  {
  }

  lemma FlatMapOne<A, B>(f: A -> seq<B>, x: A)
    ensures FlatMap(f, [x]) == f(x)
  {
  }

  lemma FlatMapNext<A, B>(f: A -> seq<B>, s: seq<A>, i: nat)
    requires i < |s|
    ensures FlatMap(f, s[..i + 1]) == FlatMap(f, s[..i]) + f(s[i])
  {
    assert s[..i + 1] == s[..i] + [s[i]];
    FlatMapConcat(f, s[..i], [s[i]]);
    FlatMapOne(f, s[i]);
  }

  lemma {:induction false} FlatMapHas<A, B>(f: A -> seq<B>, s: seq<A>, y: B)
    ensures y in FlatMap(f, s) <==> exists k :: 0 <= k < |s| && y in f(s[k])
  {
    if s != [] {
      FlatMapHas(f, s[1..], y);
      if y in FlatMap(f, s[1..]) {
        var k :| 0 <= k < |s[1..]| && y in f(s[1..][k]);
        assert s[k + 1] == s[1..][k];
      }
      if exists k :: 0 <= k < |s| && y in f(s[k]) {
        var k :| 0 <= k < |s| && y in f(s[k]);
        if k > 0 {
          assert s[1..][k - 1] == s[k];
        }
      }
    }
  }

  // ------------------------------------------------------- what the helpers say

  lemma SpaceChars(c: char)
    ensures IsSpace(c) <==> c == ' ' || c == '\t' || c == '\n' || c == '\r' || c as int == 11 || c as int == 12
  {
  }

  predicate Blank(s: string) {
    forall i :: 0 <= i < |s| ==> IsSpace(s[i])
  }

  /** Something with no white space at its ends. */
  predicate Solid(s: string) {
    s != [] && !IsSpace(s[0]) && !IsSpace(s[|s| - 1])
  }

  lemma {:induction false} TrimStartBlank(blank: string, s: string)
    requires Blank(blank)
    ensures TrimStart(blank + s) == TrimStart(s)
  {
    if blank == [] {
      assert blank + s == s;
    } else {
      assert (blank + s)[1..] == blank[1..] + s;
      TrimStartBlank(blank[1..], s);
    }
  }

  lemma {:induction false} TrimEndBlank(s: string, blank: string)
    requires Blank(blank)
    ensures TrimEnd(s + blank) == TrimEnd(s)
  {
    if blank == [] {
      assert s + blank == s;
    } else {
      var n := |blank| - 1;
      assert (s + blank)[..|s| + n] == s + blank[..n];
      TrimEndBlank(s, blank[..n]);
    }
  }

  /** `trim` takes the white space around a text, and all of a blank one. */
  lemma TrimAround(pre: string, core: string, post: string)
    requires Blank(pre) && Blank(post) && (core == [] || Solid(core))
    ensures Trim(pre + core + post) == core
  {
    ConcatAssoc(pre, core, post);
    TrimStartBlank(pre, core + post);
    if core == [] {
      assert core + post == post;
      TrimStartBlank(post, []);
      assert post + [] == post;
    } else {
      assert (core + post)[0] == core[0];
      TrimEndBlank(core, post);
    }
  }

  /** `to_ascii_lowercase`. */
  lemma LowerChars(s: string)
    ensures |Lower(s)| == |s|
    ensures forall i :: 0 <= i < |s| ==>
              if 'A' <= s[i] <= 'Z' then Lower(s)[i] as int == s[i] as int + 32 else Lower(s)[i] == s[i]
  {
  }
}
