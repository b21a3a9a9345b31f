/**
 `Include` expansion of ssh_config.rs.  The reader and the resolution of include
 tokens (tilde, anchoring, globbing) are arbitrary functions.
*/
module SshInclude {
  import opened Wrappers
  import opened Text
  import opened Collections
  import opened SshConfig

  // ------------------------------------------------------- text and directives

  lemma {:induction false} StripCommentSnoc(line: string, c: char, inQuotes: bool)
    requires c != '"' && c != '#'
    ensures StripComment(line + [c], inQuotes) == StripComment(line, inQuotes) + [c] ||
            StripComment(line + [c], inQuotes) == StripComment(line, inQuotes)
  {
    if line == [] {
      assert line + [c] == [c] && [c][1..] == [];
    } else {
      var quoted := if line[0] == '"' then !inQuotes else inQuotes;
      assert (line + [c])[1..] == line[1..] + [c];
      if line[0] != '#' || quoted {
        StripCommentSnoc(line[1..], c, quoted);
        ConcatAssoc([line[0]], StripComment(line[1..], quoted), [c]);
      }
    }
  }

  lemma StripCrIsBlank(line: string)
    ensures Trim(StripComment(StripCr(line))) == Trim(StripComment(line))
  {
    if StripCr(line) != line {
      assert line == StripCr(line) + ['\r'];
      StripCommentSnoc(StripCr(line), '\r', false);
      TrimSnoc(StripComment(StripCr(line)), '\r');
    }
  }

  lemma {:induction false} SamePieces<A, B>(f: A -> seq<B>, a: seq<A>, b: seq<A>)
    requires |a| == |b| && forall i :: 0 <= i < |a| ==> f(a[i]) == f(b[i])
    ensures FlatMap(f, a) == FlatMap(f, b)
  {
    if a != [] {
      assert f(a[0]) == f(b[0]);
      forall i | 0 <= i < |a[1..]| ensures f(a[1..][i]) == f(b[1..][i]) {
        assert f(a[i + 1]) == f(b[i + 1]);
      }
      SamePieces(f, a[1..], b[1..]);
    }
  }

  /** The directives of a text, for any reader of single lines. */
  function DirectivesBy(read: string -> seq<Directive>, s: string): seq<Directive> {
    FlatMap(read, Lines(s))
  }

  /** A reader of single lines to which line endings and blank lines mean nothing. */
  ghost predicate LineReader(read: string -> seq<Directive>) {
    && read([]) == []
    && (forall line :: read(StripCr(line)) == read(line))
    && (forall line :: |read(line)| <= 1)
  }

  lemma LineDirectiveIsReader()
    ensures LineReader(LineDirective)
  {
    forall line ensures LineDirective(StripCr(line)) == LineDirective(line) {
      StripCrIsBlank(line);
    }
  }

  lemma DirectivesBySplit(read: string -> seq<Directive>, s: string)
    requires LineReader(read)
    ensures DirectivesBy(read, s) == FlatMap(read, Split(s, '\n'))
  {
    var pieces := Split(s, '\n');
    var n := |pieces| - 1;
    var stripped := seq(n, i requires 0 <= i < n => StripCr(pieces[i]));
    var last := if pieces[n] == [] then [] else [pieces[n]];
    SamePieces(read, stripped, pieces[..n]);
    FlatMapConcat(read, stripped, last);
    FlatMapConcat(read, pieces[..n], [pieces[n]]);
    FlatMapOne(read, pieces[n]);
    assert pieces == pieces[..n] + [pieces[n]];
    assert Lines(s) == stripped + last;
  }

  /** Every line of `s` is terminated. */
  predicate Closed(s: string) {
    s == [] || s[|s| - 1] == '\n'
  }

  lemma DirectivesConcat(read: string -> seq<Directive>, a: string, b: string)
    requires LineReader(read) && Closed(a)
    ensures DirectivesBy(read, a + b) == DirectivesBy(read, a) + DirectivesBy(read, b)
  {
    if a == [] {
      assert a + b == b && Lines(a) == [];
    } else {
      var c := a[..|a| - 1];
      assert a == c + "\n" && a + b == c + ['\n'] + b;
      SplitConcat(c, b, '\n');
      DirectivesBySplit(read, a + b);
      DirectivesBySplit(read, b);
      DirectivesBySplit(read, c);
      FlatMapConcat(read, Split(c, '\n'), Split(b, '\n'));
      DirectivesTerminated(read, c);
    }
  }

  lemma DirectivesTerminated(read: string -> seq<Directive>, s: string)
    requires LineReader(read)
    ensures DirectivesBy(read, s + "\n") == DirectivesBy(read, s)
  {
    assert s + "\n" == s + ['\n'] + [];
    SplitConcat(s, [], '\n');
    DirectivesBySplit(read, s + "\n");
    DirectivesBySplit(read, s);
    FlatMapConcat(read, Split(s, '\n'), [[]]);
    FlatMapOne(read, []);
  }

  /** Appending a line, or an included text, to a buffer of whole lines. */
  lemma DirectivesAppend(read: string -> seq<Directive>, buf: string, text: string)
    requires LineReader(read) && Closed(buf)
    ensures Closed(buf + text + "\n")
    ensures DirectivesBy(read, buf + text + "\n") == DirectivesBy(read, buf) + DirectivesBy(read, text)
    ensures '\n' !in text ==> DirectivesBy(read, buf + text + "\n") == DirectivesBy(read, buf) + read(text)
  {
    assert buf + text + "\n" == buf + (text + "\n");
    DirectivesConcat(read, buf, text + "\n");
    DirectivesTerminated(read, text);
    if '\n' !in text {
      DirectivesBySplit(read, text);
      SplitPrefix(text, [], '\n');
      FlatMapOne(read, text);
    }
  }

  // ------------------------------------------------------------ what expansion means

  /** `files` gives the directives of each readable file, `resolve` the paths an
      include token stands for. */
  datatype Env = Env(files: string -> Option<seq<Directive>>, resolve: string -> seq<string>)

  /** One call of the reader, and the include budget left when it was made. */
  datatype Read = Read(path: string, budget: nat)

  /** The directives that come out, the paths seen so far, the reads made. */
  datatype Walk = Walk(out: seq<Directive>, visited: set<string>, log: seq<Read>)

  ghost function IncludePaths(env: Env, value: string): seq<string> {
    FlatMap(env.resolve, Tokens(value))
  }

  ghost function Then(a: Walk, b: Walk): Walk {
    Walk(a.out + b.out, b.visited, a.log + b.log)
  }

  /** A file's directives with its `Include`s replaced, while there is budget. */
  ghost function WalkFile(env: Env, ds: seq<Directive>, budget: nat, visited: set<string>): Walk
    decreases budget, 2, 0
  {
    if budget == 0 then Walk(ds, visited, []) else WalkDirectives(env, ds, budget, visited)
  }

  ghost function WalkDirectives(env: Env, ds: seq<Directive>, budget: nat, visited: set<string>): Walk
    requires budget > 0
    decreases budget, 1, |ds|
  {
    if ds == [] then Walk([], visited, [])
    else
      var head := if ds[0].keyword == Include then WalkPaths(env, IncludePaths(env, ds[0].value), budget, visited)
                  else Walk([ds[0]], visited, []);
      Then(head, WalkDirectives(env, ds[1..], budget, head.visited))
  }

  /** Included files one after the other, each path at most once. */
  ghost function WalkPaths(env: Env, paths: seq<string>, budget: nat, visited: set<string>): Walk
    requires budget > 0
    decreases budget, 0, |paths|
  {
    if paths == [] then Walk([], visited, [])
    else if paths[0] in visited then WalkPaths(env, paths[1..], budget, visited)
    else
      var sub := WalkOne(env, paths[0], budget, visited);
      Then(sub, WalkPaths(env, paths[1..], budget, sub.visited))
  }

  ghost function WalkOne(env: Env, path: string, budget: nat, visited: set<string>): Walk
    requires budget > 0
    decreases budget - 1, 3, 0
  {
    var seen := visited + {path};
    var inner := match env.files(path)
      case None => Walk([], seen, [])
      case Some(ds) => WalkFile(env, ds, budget - 1, seen);
    Then(Walk([], seen, [Read(path, budget)]), inner)
  }

  // ----------------------------------------------------------------- properties

  function PathSet(log: seq<Read>): set<string> {
    set r | r in log :: r.path
  }

  /** The reads of a walk are of distinct new paths, which are all it adds to
      `visited`, and every read is within the budget. */
  ghost predicate ReadsOk(w: Walk, budget: nat, visited: set<string>) {
    && (forall i, j :: 0 <= i < j < |w.log| ==> w.log[i].path != w.log[j].path)
    && PathSet(w.log) !! visited
    && w.visited == visited + PathSet(w.log)
    && (forall i :: 0 <= i < |w.log| ==> 1 <= w.log[i].budget <= budget)
  }

  lemma ThenReads(a: Walk, b: Walk, budgetA: nat, budgetB: nat, visited: set<string>)
    requires ReadsOk(a, budgetA, visited) && ReadsOk(b, budgetB, a.visited) && budgetB <= budgetA
    ensures ReadsOk(Then(a, b), budgetA, visited)
  {
    var w := Then(a, b);
    var n := |a.log|;
    assert PathSet(w.log) == PathSet(a.log) + PathSet(b.log);
    forall i, j | 0 <= i < j < |w.log| ensures w.log[i].path != w.log[j].path {
      if i < n <= j {
        assert w.log[i] in a.log && w.log[j] in b.log;
        assert w.log[i].path in PathSet(a.log) && w.log[j].path in PathSet(b.log);
      }
    }
  }

  /** No path is read twice, cyclic includes or not, and nesting stays in bounds. */
  lemma {:induction false} WalkFileReads(env: Env, ds: seq<Directive>, budget: nat, visited: set<string>)
    ensures ReadsOk(WalkFile(env, ds, budget, visited), budget, visited)
    decreases budget, 2, 0
  {
    if budget > 0 {
      WalkDirectivesReads(env, ds, budget, visited);
    }
  }

  lemma {:induction false} WalkDirectivesReads(env: Env, ds: seq<Directive>, budget: nat, visited: set<string>)
    requires budget > 0
    ensures ReadsOk(WalkDirectives(env, ds, budget, visited), budget, visited)
    decreases budget, 1, |ds|
  {
    if ds != [] {
      var head := Walk([ds[0]], visited, []);
      if ds[0].keyword == Include {
        WalkPathsReads(env, IncludePaths(env, ds[0].value), budget, visited);
        head := WalkPaths(env, IncludePaths(env, ds[0].value), budget, visited);
      }
      WalkDirectivesReads(env, ds[1..], budget, head.visited);
      ThenReads(head, WalkDirectives(env, ds[1..], budget, head.visited), budget, budget, visited);
    }
  }

  lemma {:induction false} WalkPathsReads(env: Env, paths: seq<string>, budget: nat, visited: set<string>)
    requires budget > 0
    ensures ReadsOk(WalkPaths(env, paths, budget, visited), budget, visited)
    decreases budget, 0, |paths|
  {
    if paths == [] {
    } else if paths[0] in visited {
      WalkPathsReads(env, paths[1..], budget, visited);
    } else {
      var sub := WalkOne(env, paths[0], budget, visited);
      WalkOneReads(env, paths[0], budget, visited);
      WalkPathsReads(env, paths[1..], budget, sub.visited);
      ThenReads(sub, WalkPaths(env, paths[1..], budget, sub.visited), budget, budget, visited);
    }
  }

  lemma {:induction false} WalkOneReads(env: Env, path: string, budget: nat, visited: set<string>)
    requires budget > 0 && path !in visited
    ensures ReadsOk(WalkOne(env, path, budget, visited), budget, visited)
    decreases budget - 1, 3, 0
  {
    var seen := visited + {path};
    var first := Walk([], seen, [Read(path, budget)]);
    assert ReadsOk(first, budget, visited) by {
      assert first.log[0].path == path;
    }
    match env.files(path)
    case None => ThenReads(first, Walk([], seen, []), budget, 0, visited);
    case Some(ds) =>
      WalkFileReads(env, ds, budget - 1, seen);
      ThenReads(first, WalkFile(env, ds, budget - 1, seen), budget, budget - 1, visited);
  }

  // ----------------------------------------------------------------- conservation

  /** How often `d` occurs. */
  function Count(ds: seq<Directive>, d: Directive): nat {
    if ds == [] then 0 else (if ds[0] == d then 1 else 0) + Count(ds[1..], d)
  }

  lemma {:induction false} CountConcat(a: seq<Directive>, b: seq<Directive>, d: Directive)
    ensures Count(a + b, d) == Count(a, d) + Count(b, d)
  {
    if a == [] {
      assert a + b == b;
    } else {
      CountConcat(a[1..], b, d);
      assert (a + b)[1..] == a[1..] + b;
    }
  }

  /** How often `d` occurs in the files that were read. */
  ghost function CountRead(env: Env, log: seq<Read>, d: Directive): nat {
    if log == [] then 0
    else (match env.files(log[0].path) case Some(ds) => Count(ds, d) case None => 0) + CountRead(env, log[1..], d)
  }

  lemma {:induction false} CountReadConcat(env: Env, a: seq<Read>, b: seq<Read>, d: Directive)
    ensures CountRead(env, a + b, d) == CountRead(env, a, d) + CountRead(env, b, d)
  {
    if a == [] {
      assert a + b == b;
    } else {
      CountReadConcat(env, a[1..], b, d);
      assert (a + b)[1..] == a[1..] + b;
    }
  }

  /** `d` comes out as often as it occurs in the walk's own text and the files read. */
  ghost predicate Conserves(env: Env, w: Walk, own: nat, d: Directive) {
    Count(w.out, d) == own + CountRead(env, w.log, d)
  }

  lemma ThenConserves(env: Env, a: Walk, b: Walk, ownA: nat, ownB: nat, d: Directive)
    requires Conserves(env, a, ownA, d) && Conserves(env, b, ownB, d)
    ensures Conserves(env, Then(a, b), ownA + ownB, d)
  {
    CountConcat(a.out, b.out, d);
    CountReadConcat(env, a.log, b.log, d);
  }

  /** Expansion neither loses nor repeats nor invents a directive: each one that is not
      an `Include` comes out as often as it stands in the file and in the files read
      for it, and every file is read once. */
  lemma {:induction false} WalkFileConserves(
      env: Env, ds: seq<Directive>, budget: nat, visited: set<string>, d: Directive)
    requires d.keyword != Include
    ensures Conserves(env, WalkFile(env, ds, budget, visited), Count(ds, d), d)
    decreases budget, 2, 0
  {
    if budget > 0 {
      WalkDirectivesConserves(env, ds, budget, visited, d);
    }
  }

  lemma {:induction false} WalkDirectivesConserves(
      env: Env, ds: seq<Directive>, budget: nat, visited: set<string>, d: Directive)
    requires budget > 0 && d.keyword != Include
    ensures Conserves(env, WalkDirectives(env, ds, budget, visited), Count(ds, d), d)
    decreases budget, 1, |ds|
  {
    if ds != [] {
      var head := Walk([ds[0]], visited, []);
      var own := if ds[0] == d then 1 else 0;
      if ds[0].keyword == Include {
        WalkPathsConserves(env, IncludePaths(env, ds[0].value), budget, visited, d);
        head := WalkPaths(env, IncludePaths(env, ds[0].value), budget, visited);
      } else {
        assert [ds[0]][1..] == [];
        assert Count([ds[0]], d) == own + Count([], d);
      }
      WalkDirectivesConserves(env, ds[1..], budget, head.visited, d);
      ThenConserves(env, head, WalkDirectives(env, ds[1..], budget, head.visited), own, Count(ds[1..], d), d);
    }
  }

  lemma {:induction false} WalkPathsConserves(
      env: Env, paths: seq<string>, budget: nat, visited: set<string>, d: Directive)
    requires budget > 0 && d.keyword != Include
    ensures Conserves(env, WalkPaths(env, paths, budget, visited), 0, d)
    decreases budget, 0, |paths|
  {
    if paths == [] {
    } else if paths[0] in visited {
      WalkPathsConserves(env, paths[1..], budget, visited, d);
    } else {
      var sub := WalkOne(env, paths[0], budget, visited);
      WalkOneConserves(env, paths[0], budget, visited, d);
      WalkPathsConserves(env, paths[1..], budget, sub.visited, d);
      ThenConserves(env, sub, WalkPaths(env, paths[1..], budget, sub.visited), 0, 0, d);
    }
  }

  lemma {:induction false} WalkOneConserves(env: Env, path: string, budget: nat, visited: set<string>, d: Directive)
    requires budget > 0 && d.keyword != Include
    ensures Conserves(env, WalkOne(env, path, budget, visited), 0, d)
    decreases budget - 1, 3, 0
  {
    var seen := visited + {path};
    var w := WalkOne(env, path, budget, visited);
    match env.files(path)
    case None =>
      assert w.log == [Read(path, budget)] && w.log[1..] == [];
    case Some(ds) =>
      WalkFileConserves(env, ds, budget - 1, seen, d);
      var inner := WalkFile(env, ds, budget - 1, seen);
      assert w.log == [Read(path, budget)] + inner.log && w.log[1..] == inner.log;
      assert w.out == inner.out;
  }

  // ------------------------------------------------------------- leftover includes

  function WithoutIncludes(ds: seq<Directive>): seq<Directive> {
    if ds == [] then []
    else WithoutIncludes(ds[..|ds| - 1]) + if ds[|ds| - 1].keyword == Include then [] else [ds[|ds| - 1]]
  }

  lemma {:induction false} FoldedWithoutIncludes(ds: seq<Directive>)
    ensures Folded(WithoutIncludes(ds)) == Folded(ds)
  {
    if ds != [] {
      var init, d := ds[..|ds| - 1], ds[|ds| - 1];
      FoldedWithoutIncludes(init);
      if d.keyword == Include {
        assert WithoutIncludes(ds) == WithoutIncludes(init);
        assert With(Folded(init).open, d) == Folded(init).open;
      } else {
        FoldedSnoc(WithoutIncludes(init), d);
      }
    }
  }

  /** An `Include` line that is left because the budget ran out changes no block. */
  lemma LeftoverIncludesAreInert(ds: seq<Directive>)
    ensures Blocks(ds) == Blocks(WithoutIncludes(ds))
  {
    FoldedWithoutIncludes(ds);
    FoldedIsParsed(ds);
    FoldedIsParsed(WithoutIncludes(ds));
  }

  // ------------------------------------------------------------- the bound as a bound

  predicate NoInclude(ds: seq<Directive>) {
    forall i :: 0 <= i < |ds| ==> ds[i].keyword != Include
  }

  lemma {:induction false} PlainWalk(env: Env, ds: seq<Directive>, budget: nat, visited: set<string>)
    requires budget > 0 && NoInclude(ds)
    ensures WalkDirectives(env, ds, budget, visited) == Walk(ds, visited, [])
    decreases |ds|
  {
    if ds != [] {
      PlainWalk(env, ds[1..], budget, visited);
      assert ds == [ds[0]] + ds[1..];
    }
  }

  ghost predicate SameResult(a: Walk, b: Walk) {
    a.out == b.out && a.visited == b.visited
  }

  lemma NoIncludeParts(a: Walk, b: Walk)
    requires NoInclude(Then(a, b).out)
    ensures NoInclude(a.out) && NoInclude(b.out)
  {
    forall i | 0 <= i < |a.out| ensures a.out[i].keyword != Include {
      assert Then(a, b).out[i] == a.out[i];
    }
    forall i | 0 <= i < |b.out| ensures b.out[i].keyword != Include {
      assert Then(a, b).out[|a.out| + i] == b.out[i];
    }
  }

  /** If no `Include` is left over, a larger budget gives the same result. */
  lemma {:induction false} EnoughBudget(env: Env, ds: seq<Directive>, budget: nat, visited: set<string>)
    requires NoInclude(WalkFile(env, ds, budget, visited).out)
    ensures SameResult(WalkFile(env, ds, budget, visited), WalkFile(env, ds, budget + 1, visited))
    decreases budget, 2, 0
  {
    if budget == 0 {
      PlainWalk(env, ds, 1, visited);
    } else {
      EnoughForDirectives(env, ds, budget, visited);
    }
  }

  lemma {:induction false} EnoughForDirectives(env: Env, ds: seq<Directive>, budget: nat, visited: set<string>)
    requires budget > 0 && NoInclude(WalkDirectives(env, ds, budget, visited).out)
    ensures SameResult(WalkDirectives(env, ds, budget, visited), WalkDirectives(env, ds, budget + 1, visited))
    decreases budget, 1, |ds|
  {
    if ds != [] {
      var head := Walk([ds[0]], visited, []);
      if ds[0].keyword == Include {
        head := WalkPaths(env, IncludePaths(env, ds[0].value), budget, visited);
      }
      NoIncludeParts(head, WalkDirectives(env, ds[1..], budget, head.visited));
      if ds[0].keyword == Include {
        EnoughForPaths(env, IncludePaths(env, ds[0].value), budget, visited);
      }
      EnoughForDirectives(env, ds[1..], budget, head.visited);
    }
  }

  lemma {:induction false} EnoughForPaths(env: Env, paths: seq<string>, budget: nat, visited: set<string>)
    requires budget > 0 && NoInclude(WalkPaths(env, paths, budget, visited).out)
    ensures SameResult(WalkPaths(env, paths, budget, visited), WalkPaths(env, paths, budget + 1, visited))
    decreases budget, 0, |paths|
  {
    if paths == [] {
    } else if paths[0] in visited {
      EnoughForPaths(env, paths[1..], budget, visited);
    } else {
      var sub := WalkOne(env, paths[0], budget, visited);
      NoIncludeParts(sub, WalkPaths(env, paths[1..], budget, sub.visited));
      EnoughForOne(env, paths[0], budget, visited);
      EnoughForPaths(env, paths[1..], budget, sub.visited);
    }
  }

  lemma {:induction false} EnoughForOne(env: Env, path: string, budget: nat, visited: set<string>)
    requires budget > 0 && NoInclude(WalkOne(env, path, budget, visited).out)
    ensures SameResult(WalkOne(env, path, budget, visited), WalkOne(env, path, budget + 1, visited))
    decreases budget - 1, 3, 0
  {
    match env.files(path)
    case None =>
    case Some(ds) =>
      var inner := WalkFile(env, ds, budget - 1, visited + {path});
      NoIncludeParts(Walk([], visited + {path}, [Read(path, budget)]), inner);
      EnoughBudget(env, ds, budget - 1, visited + {path});
  }

  /** So does any larger one. */
  lemma {:induction false} DeeperBudget(env: Env, ds: seq<Directive>, budget: nat, more: nat, visited: set<string>)
    requires NoInclude(WalkFile(env, ds, budget, visited).out)
    ensures SameResult(WalkFile(env, ds, budget, visited), WalkFile(env, ds, budget + more, visited))
    decreases more
  {
    if more > 0 {
      EnoughBudget(env, ds, budget, visited);
      DeeperBudget(env, ds, budget + 1, more - 1, visited);
    }
  }

  // ------------------------------------------------------------- in whose place

  /** What an include brings stands in its place, between what is before and after it. */
  lemma {:induction false} IncludeInPlace(
      env: Env, before: seq<Directive>, value: string, after: seq<Directive>, budget: nat, visited: set<string>)
    requires budget > 0 && NoInclude(before)
    ensures
      var brought := WalkPaths(env, IncludePaths(env, value), budget, visited);
      WalkDirectives(env, before + ([Directive(Include, value)] + after), budget, visited).out ==
      before + (brought.out + WalkDirectives(env, after, budget, brought.visited).out)
    decreases |before|
  {
    var ds := before + ([Directive(Include, value)] + after);
    if before == [] {
      assert ds[0] == Directive(Include, value) && ds[1..] == after;
    } else {
      assert ds[0] == before[0] && ds[1..] == before[1..] + ([Directive(Include, value)] + after);
      IncludeInPlace(env, before[1..], value, after, budget, visited);
      var brought := WalkPaths(env, IncludePaths(env, value), budget, visited);
      var rest := brought.out + WalkDirectives(env, after, budget, brought.visited).out;
      assert [before[0]] + (before[1..] + rest) == before + rest;
    }
  }

  /** A new path brings what its file says; an unreadable one, or one seen before, nothing. */
  lemma PathBrings(env: Env, path: string, budget: nat, visited: set<string>)
    requires budget > 0
    ensures path in visited || env.files(path) == None ==> WalkPaths(env, [path], budget, visited).out == []
    ensures path !in visited && env.files(path).Some? ==>
              WalkPaths(env, [path], budget, visited).out ==
              WalkFile(env, env.files(path).value, budget - 1, visited + {path}).out
  {
    assert [path][1..] == [];
    assert WalkPaths(env, [], budget, visited + {path}).out == [];
  }

  // -------------------------------------------------------- a bound that is enough

  /** Only paths in `files` can be read. */
  ghost predicate ReadableIn(env: Env, files: set<string>) {
    forall p :: env.files(p).Some? ==> p in files
  }

  lemma NoIncludeThen(a: Walk, b: Walk)
    requires NoInclude(a.out) && NoInclude(b.out)
    ensures NoInclude(Then(a, b).out)
  {
  }

  lemma FewerLeft(files: set<string>, visited: set<string>, more: set<string>)
    requires visited <= more
    ensures |files - more| <= |files - visited|
  {
    SubsetSize(files - more, files - visited);
  }

  lemma OneLess(files: set<string>, visited: set<string>, path: string)
    requires path in files && path !in visited
    ensures |files - (visited + {path})| < |files - visited|
  {
    assert files - (visited + {path}) == files - visited - {path};
  }

  /** With more levels than there are unread files, every include is expanded. */
  lemma {:induction false} FilesBoundDepth(
      env: Env, ds: seq<Directive>, budget: nat, visited: set<string>, files: set<string>)
    requires ReadableIn(env, files) && budget > |files - visited|
    ensures NoInclude(WalkFile(env, ds, budget, visited).out)
    decreases budget, 2, 0
  {
    BoundsDirectives(env, ds, budget, visited, files);
  }

  lemma {:induction false} BoundsDirectives(
      env: Env, ds: seq<Directive>, budget: nat, visited: set<string>, files: set<string>)
    requires ReadableIn(env, files) && budget > |files - visited|
    ensures NoInclude(WalkDirectives(env, ds, budget, visited).out)
    decreases budget, 1, |ds|
  {
    if ds != [] {
      var head := Walk([ds[0]], visited, []);
      if ds[0].keyword == Include {
        var paths := IncludePaths(env, ds[0].value);
        head := WalkPaths(env, paths, budget, visited);
        BoundsPaths(env, paths, budget, visited, files);
        WalkPathsReads(env, paths, budget, visited);
        FewerLeft(files, visited, head.visited);
      }
      BoundsDirectives(env, ds[1..], budget, head.visited, files);
      NoIncludeThen(head, WalkDirectives(env, ds[1..], budget, head.visited));
    }
  }

  lemma {:induction false} BoundsPaths(
      env: Env, paths: seq<string>, budget: nat, visited: set<string>, files: set<string>)
    requires ReadableIn(env, files) && budget > |files - visited|
    ensures NoInclude(WalkPaths(env, paths, budget, visited).out)
    decreases budget, 0, |paths|
  {
    if paths == [] {
    } else if paths[0] in visited {
      BoundsPaths(env, paths[1..], budget, visited, files);
    } else {
      var sub := WalkOne(env, paths[0], budget, visited);
      BoundsOne(env, paths[0], budget, visited, files);
      WalkOneReads(env, paths[0], budget, visited);
      FewerLeft(files, visited, sub.visited);
      BoundsPaths(env, paths[1..], budget, sub.visited, files);
      NoIncludeThen(sub, WalkPaths(env, paths[1..], budget, sub.visited));
    }
  }

  lemma {:induction false} BoundsOne(
      env: Env, path: string, budget: nat, visited: set<string>, files: set<string>)
    requires ReadableIn(env, files) && budget > |files - visited| && path !in visited
    ensures NoInclude(WalkOne(env, path, budget, visited).out)
    decreases budget - 1, 3, 0
  {
    match env.files(path)
    case None =>
    case Some(ds) =>
      OneLess(files, visited, path);
      FilesBoundDepth(env, ds, budget - 1, visited + {path}, files);
  }

  // ------------------------------------------------------------------------ the code

  /** The injected reader, token resolution, and reader of single lines. */
  datatype TextEnv = TextEnv(
    reader: string -> Option<string>,
    resolve: string -> seq<string>,
    read: string -> seq<Directive>)

  ghost function Meaning(te: TextEnv): Env {
    Env(p => match te.reader(p) case Some(text) => Some(DirectivesBy(te.read, text)) case None => None, te.resolve)
  }

  lemma {:induction false} FlatMapRest<A, B>(f: A -> seq<B>, s: seq<A>, i: nat)
    requires i < |s|
    ensures FlatMap(f, s[i..]) == f(s[i]) + FlatMap(f, s[i + 1..])
  {
    assert s[i..][1..] == s[i + 1..];
  }

  lemma LinesAreLines(content: string, i: nat)
    requires i < |Lines(content)|
    ensures '\n' !in Lines(content)[i]
  {
    SplitPieces(content, '\n');
    var pieces := Split(content, '\n');
    if i < |pieces| - 1 {
      assert '\n' !in pieces[i];
    }
  }

  /** `expand_includes`.  `log` records the calls of the reader. */
  method ExpandIncludes(te: TextEnv, content: string, remaining: nat, seen: set<string>)
    returns (buf: string, visited: set<string>, log: seq<Read>)
    requires LineReader(te.read)
    ensures WalkFile(Meaning(te), DirectivesBy(te.read, content), remaining, seen) ==
            Walk(DirectivesBy(te.read, buf), visited, log)
    decreases remaining, 3
  {
    if remaining == 0 {
      return content, seen, [];
    }
    forall i | 0 <= i < |Lines(content)| ensures '\n' !in Lines(content)[i] {
      LinesAreLines(content, i);
    }
    buf, visited, log := ExpandLines(te, Lines(content), remaining, seen);
  }

  /** Its loop over the lines. */
  method ExpandLines(te: TextEnv, lines: seq<string>, remaining: nat, seen: set<string>)
    returns (buf: string, visited: set<string>, log: seq<Read>)
    requires LineReader(te.read) && remaining > 0 && forall i :: 0 <= i < |lines| ==> '\n' !in lines[i]
    ensures WalkDirectives(Meaning(te), FlatMap(te.read, lines), remaining, seen) ==
            Walk(DirectivesBy(te.read, buf), visited, log)
    decreases remaining, 1
  {
    buf, visited, log := "", seen, [];
    ghost var env := Meaning(te);
    ghost var goal := WalkDirectives(env, FlatMap(te.read, lines), remaining, seen);
    ghost var out: seq<Directive> := [];
    assert lines[0..] == lines && DirectivesBy(te.read, "") == [];
    assert goal == Then(Walk([], seen, []), goal);
    for i := 0 to |lines|
      invariant Closed(buf) && out == DirectivesBy(te.read, buf)
      invariant goal == Then(Walk(out, visited, log),
                             WalkDirectives(env, FlatMap(te.read, lines[i..]), remaining, visited))
    {
      FlatMapRest(te.read, lines, i);
      LineStep(env, Walk(out, visited, log), te.read(lines[i]), FlatMap(te.read, lines[i + 1..]), remaining);
      var consumed, buf', visited', log' := ExpandIncludeLine(te, lines[i], remaining, visited, buf);
      if consumed {
        buf, visited, log := buf', visited', log + log';
        out := DirectivesBy(te.read, buf);
      } else {
        DirectivesAppend(te.read, buf, lines[i]);
        buf := buf + lines[i] + "\n";
        out := out + te.read(lines[i]);
      }
    }
    assert lines[|lines|..] == [];
    assert out + [] == out && log + [] == log;
  }

  /** A walk continued over the directives of one more line. */
  lemma LineStep(env: Env, w: Walk, line: seq<Directive>, rest: seq<Directive>, budget: nat)
    requires budget > 0 && |line| <= 1
    ensures
      var next := Then(w, WalkDirectives(env, line + rest, budget, w.visited));
      if line != [] && line[0].keyword == Include then
        var head := WalkPaths(env, IncludePaths(env, line[0].value), budget, w.visited);
        next == Then(Then(w, head), WalkDirectives(env, rest, budget, head.visited))
      else next == Then(Walk(w.out + line, w.visited, w.log), WalkDirectives(env, rest, budget, w.visited))
  {
    WalkNext(env, line, rest, budget, w.visited);
    if line != [] && line[0].keyword == Include {
      var head := WalkPaths(env, IncludePaths(env, line[0].value), budget, w.visited);
      ThenAssoc(w, head, WalkDirectives(env, rest, budget, head.visited));
    } else {
      ThenAssoc(w, Walk(line, w.visited, []), WalkDirectives(env, rest, budget, w.visited));
      assert w.log + [] == w.log;
    }
  }

  lemma ThenAssoc(a: Walk, b: Walk, c: Walk)
    ensures Then(Then(a, b), c) == Then(a, Then(b, c))
  {
  }

  /** A line that is no `Include` passes through. */
  lemma WalkNext(env: Env, line: seq<Directive>, rest: seq<Directive>, budget: nat, visited: set<string>)
    requires budget > 0 && |line| <= 1
    ensures
      if line != [] && line[0].keyword == Include then
        var head := WalkPaths(env, IncludePaths(env, line[0].value), budget, visited);
        WalkDirectives(env, line + rest, budget, visited) == Then(head, WalkDirectives(env, rest, budget, head.visited))
      else
        WalkDirectives(env, line + rest, budget, visited) ==
        Then(Walk(line, visited, []), WalkDirectives(env, rest, budget, visited))
  {
    if line == [] {
      assert line + rest == rest;
      var w := WalkDirectives(env, rest, budget, visited);
      assert [] + w.out == w.out && [] + w.log == w.log;
    } else {
      assert line == [line[0]] && (line + rest)[1..] == rest;
    }
  }

  /** `expand_include_line`: true when the line was an `Include` and is consumed. */
  method ExpandIncludeLine(te: TextEnv, line: string, remaining: nat, seen: set<string>, before: string)
    returns (consumed: bool, buf: string, visited: set<string>, log: seq<Read>)
    requires LineReader(te.read) && remaining > 0 && Closed(before)
    ensures consumed <==> te.read(line) != [] && te.read(line)[0].keyword == Include
    ensures consumed ==>
              var w := WalkPaths(Meaning(te), IncludePaths(Meaning(te), te.read(line)[0].value), remaining, seen);
              && Closed(buf) && visited == w.visited && log == w.log
              && DirectivesBy(te.read, buf) == DirectivesBy(te.read, before) + w.out
    decreases remaining, 0
  {
    buf, visited, log := before, seen, [];
    var parsed := te.read(line);
    if parsed == [] || parsed[0].keyword != Include {
      return false, buf, visited, log;
    }
    var paths := FlatMap(te.resolve, Tokens(parsed[0].value));
    ghost var env := Meaning(te);
    ghost var goal := Then(Walk(DirectivesBy(te.read, before), seen, []), WalkPaths(env, paths, remaining, seen));
    assert paths[0..] == paths;
    for i := 0 to |paths|
      invariant Closed(buf)
      invariant goal == Then(Walk(DirectivesBy(te.read, buf), visited, log),
                             WalkPaths(env, paths[i..], remaining, visited))
    {
      var resolved := paths[i];
      assert paths[i..][1..] == paths[i + 1..];
      if resolved in visited {
        continue;
      }
      ghost var w := Walk(DirectivesBy(te.read, buf), visited, log);
      ghost var sub := WalkOne(env, resolved, remaining, visited);
      ThenAssoc(w, sub, WalkPaths(env, paths[i + 1..], remaining, sub.visited));
      var text, visited', log' := ReadOne(te, resolved, remaining, visited);
      visited, log := visited', log + log';
      if text.Some? {
        DirectivesAppend(te.read, buf, text.value);
        buf := buf + text.value + "\n";
      } else {
        assert w.out + [] == w.out;
      }
    }
    assert paths[|paths|..] == [];
    assert goal.out == DirectivesBy(te.read, buf) && goal.log == log;
    consumed := true;
  }

  /** One new path: mark it, call the reader, expand what it gives. */
  method ReadOne(te: TextEnv, path: string, remaining: nat, seen: set<string>)
    returns (text: Option<string>, visited: set<string>, log: seq<Read>)
    requires LineReader(te.read) && remaining > 0
    ensures WalkOne(Meaning(te), path, remaining, seen) ==
            Walk(if text.Some? then DirectivesBy(te.read, text.value) else [], visited, log)
    decreases remaining - 1, 4
  {
    visited, log := seen + {path}, [Read(path, remaining)];
    match te.reader(path) {
      case None => text := None;
      case Some(included) =>
        var expanded, visited', log' := ExpandIncludes(te, included, remaining - 1, visited);
        visited, log := visited', log + log';
        text := Some(expanded);
        assert [] + DirectivesBy(te.read, expanded) == DirectivesBy(te.read, expanded);
    }
  }
}
