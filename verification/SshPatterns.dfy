/**
 `Host` patterns of ssh_config.rs: the glob matcher, and when a block's pattern list
 selects a host.
*/
module SshPatterns {

  /** `glob_at`: does `p[pi..]` match `t[ti..]`? */
  predicate GlobAt(p: string, pi: nat, t: string, ti: nat)
    requires pi <= |p| && ti <= |t|
    decreases |p| - pi
  {
    if pi == |p| then ti == |t|
    else if p[pi] == '*' then
      var next := pi + 1;
      exists k {:trigger GlobAt(p, next, t, k)} :: ti <= k <= |t| && GlobAt(p, next, t, k)
    else if p[pi] == '?' then ti < |t| && GlobAt(p, pi + 1, t, ti + 1)
    else ti < |t| && t[ti] == p[pi] && GlobAt(p, pi + 1, t, ti + 1)
  }

  predicate Glob(pattern: string, text: string) {
    GlobAt(pattern, 0, text, 0)
  }

  // Reference reading (PATTERNS in ssh_config(5)): the text splits into one piece per
  // pattern character, `*` standing for any piece and `?` for any single character.

  predicate PieceFits(c: char, piece: string) {
    c == '*' || (|piece| == 1 && (c == '?' || piece[0] == c))
  }

  function Concat(pieces: seq<string>): string {
    if pieces == [] then [] else pieces[0] + Concat(pieces[1..])
  }

  predicate SplitsBy(p: string, pieces: seq<string>, t: string) {
    |pieces| == |p| && Concat(pieces) == t && forall i :: 0 <= i < |p| ==> PieceFits(p[i], pieces[i])
  }

  lemma {:induction false} GlobSplits(p: string, pi: nat, t: string, ti: nat) returns (pieces: seq<string>)
    requires pi <= |p| && ti <= |t| && GlobAt(p, pi, t, ti)
    ensures SplitsBy(p[pi..], pieces, t[ti..])
    decreases |p| - pi
  {
    if pi == |p| {
      pieces := [];
    } else {
      var k := ti + 1;
      if p[pi] == '*' {
        k :| ti <= k <= |t| && GlobAt(p, pi + 1, t, k);
      }
      var rest := GlobSplits(p, pi + 1, t, k);
      pieces := [t[ti..k]] + rest;
      assert pieces[1..] == rest && p[pi..][1..] == p[pi + 1..] && t[ti..] == t[ti..k] + t[k..];
      forall i | 0 <= i < |p[pi..]| ensures PieceFits(p[pi..][i], pieces[i]) {
        assert i > 0 ==> p[pi..][i] == p[pi + 1..][i - 1] && pieces[i] == rest[i - 1];
      }
    }
  }

  lemma {:induction false} SplitsGlob(p: string, pi: nat, t: string, ti: nat, pieces: seq<string>)
    requires pi <= |p| && ti <= |t| && SplitsBy(p[pi..], pieces, t[ti..])
    ensures GlobAt(p, pi, t, ti)
    decreases |p| - pi
  {
    if pi < |p| {
      var k := ti + |pieces[0]|;
      assert p[pi..][0] == p[pi] && PieceFits(p[pi], pieces[0]);
      assert t[ti..] == pieces[0] + Concat(pieces[1..]);
      assert t[k..] == t[ti..][|pieces[0]|..] == Concat(pieces[1..]);
      assert |pieces[0]| > 0 ==> t[ti] == t[ti..][0] == pieces[0][0];
      forall i | 0 <= i < |p[pi + 1..]| ensures PieceFits(p[pi + 1..][i], pieces[1..][i]) {
        assert p[pi + 1..][i] == p[pi..][i + 1] && pieces[1..][i] == pieces[i + 1];
      }
      SplitsGlob(p, pi + 1, t, k, pieces[1..]);
    }
  }

  /** The matcher accepts exactly the texts that split by the pattern. */
  lemma GlobIffSplits(p: string, t: string)
    ensures Glob(p, t) <==> exists pieces :: SplitsBy(p, pieces, t)
  {
    assert p[0..] == p && t[0..] == t;
    if Glob(p, t) {
      var pieces := GlobSplits(p, 0, t, 0);
    }
    if pieces :| SplitsBy(p, pieces, t) {
      SplitsGlob(p, 0, t, 0, pieces);
    }
  }

  predicate IsWildcard(pattern: string) {
    '*' in pattern || '?' in pattern || "!" <= pattern
  }

  /** A pattern without glob characters matches itself and nothing else. */
  lemma {:induction false} LiteralGlob(p: string, pi: nat, t: string, ti: nat)
    requires pi <= |p| && ti <= |t| && '*' !in p && '?' !in p
    ensures GlobAt(p, pi, t, ti) <==> p[pi..] == t[ti..]
    decreases |p| - pi
  {
    if pi < |p| && ti < |t| {
      LiteralGlob(p, pi + 1, t, ti + 1);
      assert p[pi..] == [p[pi]] + p[pi + 1..] && t[ti..] == [t[ti]] + t[ti + 1..];
    }
  }

  /** A pattern list selects a host when some positive pattern matches it and no
      negated one does. */
  ghost predicate Selects(patterns: seq<string>, host: string) {
    && (exists q :: q in patterns && !("!" <= q) && Glob(q, host))
    && !Excludes(patterns, host)
  }

  ghost predicate Excludes(patterns: seq<string>, host: string) {
    exists q :: q in patterns && "!" <= q && Glob(q[1..], host)
  }

  /** `RawBlock::matches`. */
  method Matches(patterns: seq<string>, host: string) returns (r: bool)
    ensures r <==> Selects(patterns, host)
  {
    var positive := false;
    for i := 0 to |patterns|
      invariant positive <==> exists q :: q in patterns[..i] && !("!" <= q) && Glob(q, host)
      invariant !Excludes(patterns[..i], host)
    {
      var raw := patterns[i];
      assert patterns[..i + 1] == patterns[..i] + [raw];
      var neg := "!" <= raw;
      var pat := if neg then raw[1..] else raw;
      if Glob(pat, host) {
        if neg {
          assert raw in patterns;
          return false;
        }
        positive := true;
      }
    }
    assert patterns[..|patterns|] == patterns;
    return positive;
  }

  /** A list of literal patterns selects exactly the hosts it names. */
  lemma LiteralsSelect(patterns: seq<string>, host: string)
    requires forall q :: q in patterns ==> !IsWildcard(q)
    ensures Selects(patterns, host) <==> host in patterns
  {
    forall q | q in patterns ensures Glob(q, host) <==> q == host {
      LiteralGlob(q, 0, host, 0);
      assert q[0..] == q && host[0..] == host;
    }
  }

  /** `*` matches any text, `?` any single character. */
  lemma GlobSigns(t: string)
    ensures Glob("*", t)
    ensures Glob("?", t) <==> |t| == 1
  {
    assert GlobAt("*", 1, t, |t|);
  }

  /** `!host` keeps a block from being selected, whatever else is in its list. */
  lemma NegationSays(patterns: seq<string>, host: string)
    requires ['!'] + host in patterns && '*' !in host && '?' !in host
    ensures !Selects(patterns, host)
  {
    var q := ['!'] + host;
    assert q[1..] == host && "!" <= q;
    LiteralGlob(host, 0, host, 0);
  }
}
