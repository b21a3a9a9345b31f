/**
 The `{{name}}` renderer of snippet_template.rs, and when filling in two passes gives
 what one pass with both contexts gives.
*/
module SnippetTemplate {
  import opened Wrappers
  import opened Text

  type Context = map<string, string>

  // ---------------------------------------------------------------------- scanning

  predicate Opens(s: string) {
    |s| >= 2 && s[0] == '{' && s[1] == '{'
  }

  predicate Escapes(s: string) {
    |s| >= 4 && s[0] == '{' && s[1] == '{' && s[2] == '{' && s[3] == '{'
  }

  /** Position of the first `}}`. */
  function FindClose(s: string): Option<nat> {
    if |s| < 2 then None
    else if s[0] == '}' && s[1] == '}' then Some(0)
    else
      match FindClose(s[1..])
      case None => None
      case Some(k) => Some(k + 1)
  }

  lemma {:induction false} FindCloseOk(s: string)
    ensures FindClose(s).Some? ==>
              var k := FindClose(s).value;
              && k + 2 <= |s| && s[k] == '}' && s[k + 1] == '}'
              && forall j :: 0 <= j < k ==> !(s[j] == '}' && s[j + 1] == '}')
    ensures FindClose(s).None? ==> forall j :: 0 <= j < |s| - 1 ==> !(s[j] == '}' && s[j + 1] == '}')
  {
    if |s| >= 2 && !(s[0] == '}' && s[1] == '}') {
      FindCloseOk(s[1..]);
      forall j | 0 <= j < |s| - 1 && j > 0 ensures s[j] == s[1..][j - 1] && s[j + 1] == s[1..][j] {
      }
    }
  }

  /** A piece of a template: literal text, the `{{{{` escape, or a named hole with the
      text it was written as. */
  datatype Piece = Plain(text: string) | Escape | Hole(text: string, name: string)

  /** The token at the start of `t` whose braces close at `k`; a blank name is a typo. */
  function TokenPiece(t: string, k: nat): Piece
    requires k + 4 <= |t|
  {
    var name := Trim(t[2..k + 2]);
    if name == [] then Plain(t[..k + 4]) else Hole(t[..k + 4], name)
  }

  function Parse(t: string): seq<Piece>
    decreases |t|
  {
    if t == [] then []
    else if Escapes(t) then [Escape] + Parse(t[4..])
    else if Opens(t) then
      match FindClose(t[2..])
      case None => [Plain(t)]
      case Some(k) =>
        FindCloseOk(t[2..]);
        [TokenPiece(t, k)] + Parse(t[k + 4..])
    else [Plain([t[0]])] + Parse(t[1..])
  }

  /** What a piece becomes: unknown holes stay as they were written. */
  function Shown(p: Piece, ctx: Context): string {
    match p
    case Plain(text) => text
    case Escape => ['{', '{']
    case Hole(text, name) => if name in ctx then ctx[name] else text
  }

  function Show(pieces: seq<Piece>, ctx: Context): string {
    if pieces == [] then [] else Shown(pieces[0], ctx) + Show(pieces[1..], ctx)
  }

  function Rendered(t: string, ctx: Context): string {
    Show(Parse(t), ctx)
  }

  /** The names of the holes `ctx` does not fill, each at its first occurrence. */
  function Missing(pieces: seq<Piece>, ctx: Context, seen: seq<string>): seq<string> {
    if pieces == [] then seen
    else
      var p := pieces[0];
      Missing(pieces[1..], ctx, if p.Hole? && p.name !in ctx && p.name !in seen then seen + [p.name] else seen)
  }

  // --------------------------------------------------------------------- the code

  /** `find_close`. */
  method FindCloseLoop(haystack: string) returns (r: Option<nat>)
    ensures r == FindClose(haystack)
  {
    var i := 0;
    assert haystack[0..] == haystack;
    while i + 1 < |haystack|
      invariant 0 <= i <= |haystack|
      invariant FindClose(haystack) ==
                match FindClose(haystack[i..]) case Some(k) => Some(i + k) case None => None
    {
      assert haystack[i..][1..] == haystack[i + 1..];
      if haystack[i] == '}' && haystack[i + 1] == '}' {
        return Some(i);
      }
      i := i + 1;
    }
    return None;
  }

  // What is left to do after a prefix of the template: its pieces, to be shown after
  // `out`, with `known` the names already missing.

  ghost predicate Leaves(
      goal: (string, seq<string>), pieces: seq<Piece>, ctx: Context, out: string, known: seq<string>)
  {
    goal == (out + Show(pieces, ctx), Missing(pieces, ctx, known))
  }

  lemma Consume(goal: (string, seq<string>), p: Piece, tail: seq<Piece>, ctx: Context, out: string, known: seq<string>)
    requires Leaves(goal, [p] + tail, ctx, out, known)
    ensures Leaves(goal, tail, ctx, out + Shown(p, ctx),
                   if p.Hole? && p.name !in ctx && p.name !in known then known + [p.name] else known)
  {
    assert ([p] + tail)[1..] == tail;
    ConcatAssoc(out, Shown(p, ctx), Show(tail, ctx));
  }

  lemma ParseEscape(t: string)
    requires Escapes(t)
    ensures Parse(t) == [Escape] + Parse(t[4..])
  {
  }

  lemma ParseChar(t: string)
    requires t != [] && !Opens(t)
    ensures Parse(t) == [Plain([t[0]])] + Parse(t[1..])
  {
  }

  lemma ParseToken(t: string)
    requires Opens(t) && !Escapes(t)
    ensures
      match FindClose(t[2..])
      case None => Parse(t) == [Plain(t)] + []
      case Some(k) =>
        k + 4 <= |t| && Parse(t) == [TokenPiece(t, k)] + Parse(t[k + 4..])
  {
    FindCloseOk(t[2..]);
  }

  /** `render`. */
  method Render(template: string, ctx: Context) returns (out: string, unresolved: seq<string>)
    ensures out == Rendered(template, ctx)
    ensures unresolved == Missing(Parse(template), ctx, [])
  {
    out, unresolved := [], [];
    var i := 0;
    ghost var goal := (Rendered(template, ctx), Missing(Parse(template), ctx, []));
    assert template[0..] == template && [] + Rendered(template, ctx) == Rendered(template, ctx);
    while i < |template|
      invariant 0 <= i <= |template|
      invariant Leaves(goal, Parse(template[i..]), ctx, out, unresolved)
    {
      var next;
      next, out, unresolved := RenderNext(template[i..], ctx, out, unresolved, goal);
      if next.None? {
        return;
      }
      assert template[i..][next.value..] == template[i + next.value..];
      i := i + next.value;
    }
    assert template[i..] == [] && out + [] == out;
  }

  /** One turn of that loop on what is left of the template: how far to move on. */
  method RenderNext(rest: string, ctx: Context, before: string, known: seq<string>, ghost goal: (string, seq<string>))
    returns (next: Option<nat>, out: string, unresolved: seq<string>)
    requires rest != [] && Leaves(goal, Parse(rest), ctx, before, known)
    ensures next.None? ==> goal == (out, unresolved)
    ensures next.Some? ==>
              1 <= next.value <= |rest| && Leaves(goal, Parse(rest[next.value..]), ctx, out, unresolved)
  {
    if Escapes(rest) {
      ParseEscape(rest);
      Consume(goal, Escape, Parse(rest[4..]), ctx, before, known);
      return Some(4), before + ['{', '{'], known;
    }
    if Opens(rest) {
      next, out, unresolved := ScanToken(rest, ctx, before, known, goal);
      return;
    }
    ParseChar(rest);
    Consume(goal, Plain([rest[0]]), Parse(rest[1..]), ctx, before, known);
    return Some(1), before + [rest[0]], known;
  }

  /** `scan_token` on the text from the opening braces on: how far it got, `None` when
      the token is not closed. */
  method ScanToken(rest: string, ctx: Context, before: string, known: seq<string>, ghost goal: (string, seq<string>))
    returns (next: Option<nat>, out: string, unresolved: seq<string>)
    requires Opens(rest) && !Escapes(rest) && Leaves(goal, Parse(rest), ctx, before, known)
    ensures next.None? ==> goal == (out, unresolved)
    ensures next.Some? ==>
              4 <= next.value <= |rest| && Leaves(goal, Parse(rest[next.value..]), ctx, out, unresolved)
  {
    out, unresolved := before, known;
    var found := FindCloseLoop(rest[2..]);
    ParseToken(rest);
    if found.None? {
      Consume(goal, Plain(rest), [], ctx, before, known);
      assert before + rest + [] == before + rest;
      out := out + rest;
      return None, out, unresolved;
    }
    var close := 2 + found.value;
    var name := Trim(rest[2..close]);
    var text := rest[..close + 2];
    Consume(goal, if name == [] then Plain(text) else Hole(text, name), Parse(rest[close + 2..]), ctx, before, known);
    if name == [] {
      out := out + text;
      return Some(close + 2), out, unresolved;
    }
    if name in ctx {
      out := out + ctx[name];
    } else {
      out := out + text;
      if name !in unresolved {
        unresolved := unresolved + [name];
      }
    }
    return Some(close + 2), out, unresolved;
  }

  // ----------------------------------------------------------------- unresolved names

  /** `a` occurs before the first occurrence of `b`, or `b` not at all. */
  predicate FirstBefore(names: seq<string>, a: string, b: string) {
    names != [] && (names[0] == a || (names[0] != b && FirstBefore(names[1..], a, b)))
  }

  /** The names of the unfilled holes in order of occurrence. */
  function HoleNames(pieces: seq<Piece>, ctx: Context): seq<string> {
    if pieces == [] then []
    else (if pieces[0].Hole? && pieces[0].name !in ctx then [pieces[0].name] else []) + HoleNames(pieces[1..], ctx)
  }

  /** `Missing` continues `seen` with the other names, each once, in first-seen order. */
  lemma {:induction false} MissingOk(pieces: seq<Piece>, ctx: Context, seen: seq<string>)
    requires forall i, j :: 0 <= i < j < |seen| ==> seen[i] != seen[j]
    ensures
      var m := Missing(pieces, ctx, seen);
      && seen <= m && (forall i, j :: 0 <= i < j < |m| ==> m[i] != m[j])
      && (forall x :: x in m <==> x in seen || x in HoleNames(pieces, ctx))
      && (forall i, j :: |seen| <= i < j < |m| ==> FirstBefore(HoleNames(pieces, ctx), m[i], m[j]))
  {
    if pieces != [] {
      var p := pieces[0];
      var isNew := p.Hole? && p.name !in ctx && p.name !in seen;
      var next := if isNew then seen + [p.name] else seen;
      MissingOk(pieces[1..], ctx, next);
      var m := Missing(pieces, ctx, seen);
      var names, rest := HoleNames(pieces, ctx), HoleNames(pieces[1..], ctx);
      if p.Hole? && p.name !in ctx {
        assert names == [p.name] + rest && names[1..] == rest;
        forall i, j | |seen| <= i < j < |m| ensures FirstBefore(names, m[i], m[j]) {
          if isNew && i == |seen| {
            assert m[i] == next[i] == p.name;
          } else {
            assert FirstBefore(rest, m[i], m[j]);
            assert m[j] != p.name by {
              if isNew {
                assert m[|seen|] == next[|seen|] == p.name;
              } else {
                var k :| 0 <= k < |seen| && seen[k] == p.name;
                assert m[k] == seen[k];
              }
            }
          }
        }
      } else {
        assert names == [] + rest == rest;
      }
    }
  }

  /** The unresolved list: distinct, exactly the unfilled names, in first-seen order. */
  lemma UnresolvedOk(t: string, ctx: Context)
    ensures
      var m := Missing(Parse(t), ctx, []);
      var names := HoleNames(Parse(t), ctx);
      && (forall i, j :: 0 <= i < j < |m| ==> m[i] != m[j] && FirstBefore(names, m[i], m[j]))
      && (forall x :: x in m <==> x in names)
  {
    MissingOk(Parse(t), ctx, []);
  }

  // --------------------------------------------------------------------- two passes

  /** A text with holes, character by character. */
  datatype Cell = Char(c: char) | Open(text: string, name: string)

  function Chars(s: string): seq<Cell> {
    if s == [] then [] else [Char(s[0])] + Chars(s[1..])
  }

  /** A piece once `ctx` has been filled in. */
  function CellsOf(p: Piece, ctx: Context): seq<Cell> {
    if p.Hole? && p.name !in ctx then [Open(p.text, p.name)] else Chars(Shown(p, ctx))
  }

  function Cells(pieces: seq<Piece>, ctx: Context): seq<Cell> {
    if pieces == [] then [] else CellsOf(pieces[0], ctx) + Cells(pieces[1..], ctx)
  }

  function CellShown(c: Cell, ctx: Context): string {
    match c
    case Char(ch) => [ch]
    case Open(text, name) => if name in ctx then ctx[name] else text
  }

  function Fill(cells: seq<Cell>, ctx: Context): string {
    if cells == [] then [] else CellShown(cells[0], ctx) + Fill(cells[1..], ctx)
  }

  lemma {:induction false} FillConcat(a: seq<Cell>, b: seq<Cell>, ctx: Context)
    ensures Fill(a + b, ctx) == Fill(a, ctx) + Fill(b, ctx)
  {
    if a == [] {
      assert a + b == b;
    } else {
      FillConcat(a[1..], b, ctx);
      assert (a + b)[1..] == a[1..] + b;
      ConcatAssoc(CellShown(a[0], ctx), Fill(a[1..], ctx), Fill(b, ctx));
    }
  }

  lemma {:induction false} FillChars(s: string, ctx: Context)
    ensures Fill(Chars(s), ctx) == s
  {
    if s != [] {
      FillChars(s[1..], ctx);
      assert Chars(s)[1..] == Chars(s[1..]);
    }
  }

  /** Filling in two steps is filling with the merged context, the first winning. */
  lemma {:induction false} FillMerged(pieces: seq<Piece>, first: Context, second: Context)
    ensures Fill(Cells(pieces, first), second) == Show(pieces, second + first)
  {
    if pieces != [] {
      var p := pieces[0];
      FillMerged(pieces[1..], first, second);
      FillConcat(CellsOf(p, first), Cells(pieces[1..], first), second);
      if p.Hole? && p.name !in first {
        assert [Open(p.text, p.name)][1..] == [];
      } else {
        FillChars(Shown(p, first), second);
      }
    }
  }

  /** Scanning the first pass's output again finds exactly the holes it left open. */
  predicate SameHoles(t: string, first: Context) {
    Cells(Parse(Rendered(t, first)), map[]) == Cells(Parse(t), first)
  }

  lemma {:induction false} FindCloseExtend(s: string, more: string)
    requires FindClose(s).Some?
    ensures FindClose(s + more) == FindClose(s)
  {
    if !(s[0] == '}' && s[1] == '}') {
      FindCloseExtend(s[1..], more);
      assert (s + more)[1..] == s[1..] + more;
    }
  }

  lemma {:induction false} FindCloseCut(s: string)
    requires FindClose(s).Some?
    ensures FindClose(s).value + 2 <= |s|
    ensures FindClose(s[..FindClose(s).value + 2]) == FindClose(s)
  {
    FindCloseOk(s);
    var k := FindClose(s).value;
    if !(s[0] == '}' && s[1] == '}') {
      FindCloseCut(s[1..]);
      assert s[..k + 2][1..] == s[1..][..k + 1];
    }
  }

  /** The text of a hole runs to its first closing braces. */
  predicate WellCell(c: Cell) {
    c.Open? ==> |c.text| >= 4 && FindClose(c.text[2..]) == Some(|c.text| - 4)
  }

  predicate WellFormed(cells: seq<Cell>) {
    forall i :: 0 <= i < |cells| ==> WellCell(cells[i])
  }

  predicate WellPiece(p: Piece) {
    p.Hole? ==> |p.text| >= 4 && FindClose(p.text[2..]) == Some(|p.text| - 4)
  }

  lemma {:induction false} CharsWellFormed(s: string)
    ensures forall i :: 0 <= i < |Chars(s)| ==> Chars(s)[i].Char?
  {
    if s != [] {
      CharsWellFormed(s[1..]);
    }
  }

  lemma PieceWellFormed(p: Piece, tail: seq<Piece>, ctx: Context)
    requires WellPiece(p) && WellFormed(Cells(tail, ctx))
    ensures WellFormed(Cells([p] + tail, ctx))
  {
    CellsCons(p, tail, ctx);
    CharsWellFormed(Shown(p, ctx));
    var a, b := CellsOf(p, ctx), Cells(tail, ctx);
    assert WellFormed(a);
    forall i | 0 <= i < |a + b| ensures WellCell((a + b)[i]) {
      assert (a + b)[i] == if i < |a| then a[i] else b[i - |a|];
    }
  }

  /** The text of a closed token closes where the token did, whatever follows. */
  lemma TokenClose(t: string, rest: string)
    requires Opens(t) && !Escapes(t) && FindClose(t[2..]).Some?
    ensures
      var k := FindClose(t[2..]).value;
      && k + 4 <= |t| && FindClose(t[..k + 4][2..]) == Some(k)
      && FindClose((t[..k + 4] + rest)[2..]) == Some(k)
  {
    FindCloseCut(t[2..]);
    var k := FindClose(t[2..]).value;
    assert t[..k + 4][2..] == t[2..][..k + 2];
    FindCloseExtend(t[..k + 4][2..], rest);
    assert (t[..k + 4] + rest)[2..] == t[..k + 4][2..] + rest;
  }

  lemma {:induction false} CellsWellFormed(t: string, ctx: Context)
    ensures WellFormed(Cells(Parse(t), ctx))
    decreases |t|
  {
    if t == [] {
    } else if Escapes(t) {
      ParseEscape(t);
      CellsWellFormed(t[4..], ctx);
      PieceWellFormed(Escape, Parse(t[4..]), ctx);
    } else if Opens(t) {
      ParseToken(t);
      match FindClose(t[2..])
      case None => PieceWellFormed(Plain(t), [], ctx);
      case Some(k) =>
        CellsWellFormed(t[k + 4..], ctx);
        TokenClose(t, []);
        PieceWellFormed(Parse(t)[0], Parse(t[k + 4..]), ctx);
    } else {
      ParseChar(t);
      CellsWellFormed(t[1..], ctx);
      PieceWellFormed(Plain([t[0]]), Parse(t[1..]), ctx);
    }
  }

  lemma CellsCons(p: Piece, tail: seq<Piece>, ctx: Context)
    ensures Cells([p] + tail, ctx) == CellsOf(p, ctx) + Cells(tail, ctx)
  {
  }

  /** Two texts with holes that always fill to the same string are the same. */
  lemma {:induction false} Distinguish(a: seq<Cell>, b: seq<Cell>) returns (ctx: Context)
    requires a != b && WellFormed(a) && WellFormed(b)
    ensures Fill(a, ctx) != Fill(b, ctx)
    decreases |a|
  {
    if a == [] || b == [] {
      ctx := map[];
    } else if a[0] == b[0] {
      assert a == [a[0]] + a[1..] && b == [b[0]] + b[1..];
      ctx := Distinguish(a[1..], b[1..]);
      Cancel(CellShown(a[0], ctx), Fill(a[1..], ctx), Fill(b[1..], ctx));
    } else if a[0].Char? && b[0].Char? {
      ctx := map[];
      assert Fill(a, ctx)[0] == a[0].c && Fill(b, ctx)[0] == b[0].c;
    } else if a[0].Char? {
      ctx := DistinguishChar(a, b);
    } else if b[0].Char? {
      ctx := DistinguishChar(b, a);
    } else if a[0].name != b[0].name {
      ctx := map[a[0].name := ['1'], b[0].name := ['2']];
      assert Fill(a, ctx)[0] == '1' && Fill(b, ctx)[0] == '2';
    } else {
      ctx := map[];
      SelfDelimiting(a[0].text, Fill(a[1..], ctx), b[0].text, Fill(b[1..], ctx));
    }
  }

  /** The text of a hole can be told from what follows it. */
  lemma SelfDelimiting(s: string, x: string, u: string, y: string)
    requires |s| >= 4 && FindClose(s[2..]) == Some(|s| - 4)
    requires |u| >= 4 && FindClose(u[2..]) == Some(|u| - 4)
    ensures s != u ==> s + x != u + y
  {
    FindCloseExtend(s[2..], x);
    FindCloseExtend(u[2..], y);
    assert (s + x)[2..] == s[2..] + x && (u + y)[2..] == u[2..] + y;
    assert (s + x)[..|s|] == s && (u + y)[..|u|] == u;
  }

  lemma Cancel(x: string, y: string, z: string)
    requires y != z
    ensures x + y != x + z
  {
    assert (x + y)[|x|..] == y && (x + z)[|x|..] == z;
  }

  lemma DistinguishChar(a: seq<Cell>, b: seq<Cell>) returns (ctx: Context)
    requires a != [] && b != [] && a[0].Char? && b[0].Open?
    ensures Fill(a, ctx) != Fill(b, ctx)
  {
    var other := if a[0].c == '1' then '2' else '1';
    ctx := map[b[0].name := [other]];
    assert Fill(a, ctx)[0] == a[0].c && Fill(b, ctx)[0] == other;
  }

  lemma RenderedTwice(t: string, first: Context, second: Context)
    ensures Rendered(Rendered(t, first), second) == Fill(Cells(Parse(Rendered(t, first)), map[]), second)
    ensures Rendered(t, second + first) == Fill(Cells(Parse(t), first), second)
  {
    FillMerged(Parse(Rendered(t, first)), map[], second);
    FillMerged(Parse(t), first, second);
    assert second + map[] == second;
  }

  /** `fill_unresolved` after `render` is one `render` with both contexts, whatever is
      filled in, exactly when the first pass's output scans into the holes it left. */
  lemma TwoPassesIff(t: string, first: Context)
    ensures SameHoles(t, first) <==>
            forall second: Context :: Rendered(Rendered(t, first), second) == Rendered(t, second + first)
  {
    var a, b := Cells(Parse(Rendered(t, first)), map[]), Cells(Parse(t), first);
    if a == b {
      forall second: Context ensures Rendered(Rendered(t, first), second) == Rendered(t, second + first) {
        RenderedTwice(t, first, second);
      }
    } else {
      CellsWellFormed(Rendered(t, first), map[]);
      CellsWellFormed(t, first);
      var second := Distinguish(a, b);
      RenderedTwice(t, first, second);
    }
  }

  // ---------------------------------------------------------- when the holes stay put

  /** No two braces open inside the value, nor one at its end. */
  predicate Inert(v: string) {
    && (forall i :: 0 <= i < |v| - 1 ==> !(v[i] == '{' && v[i + 1] == '{'))
    && (v != [] ==> v[|v| - 1] != '{')
  }

  predicate NoEscape(pieces: seq<Piece>) {
    forall i :: 0 <= i < |pieces| ==> !pieces[i].Escape?
  }

  predicate FillsInert(p: Piece, ctx: Context) {
    p.Hole? && p.name in ctx ==> Inert(ctx[p.name])
  }

  /** The values that the template uses are inert; others may be anything. */
  predicate AllInert(pieces: seq<Piece>, ctx: Context) {
    forall i :: 0 <= i < |pieces| ==> FillsInert(pieces[i], ctx)
  }

  lemma {:induction false} InertPrefix(v: string, rest: string)
    requires Inert(v)
    ensures Cells(Parse(v + rest), map[]) == Chars(v) + Cells(Parse(rest), map[])
  {
    if v == [] {
      assert v + rest == rest;
    } else {
      assert (v + rest)[1..] == v[1..] + rest;
      assert !Opens(v + rest);
      InertPrefix(v[1..], rest);
      ParseChar(v + rest);
      CellsCons(Plain([v[0]]), Parse(v[1..] + rest), map[]);
      assert Chars([v[0]]) == [Char(v[0])] by { assert [v[0]][1..] == []; }
      ConcatAssoc([Char(v[0])], Chars(v[1..]), Cells(Parse(rest), map[]));
    }
  }

  /** A closed token is scanned as before whatever follows it. */
  lemma TokenAgain(t: string, rest: string)
    requires Opens(t) && !Escapes(t) && FindClose(t[2..]).Some?
    ensures FindClose(t[2..]).value + 4 <= |t|
    ensures Parse(t[..FindClose(t[2..]).value + 4] + rest) == [Parse(t)[0]] + Parse(rest)
  {
    ParseToken(t);
    TokenClose(t, rest);
    var k := FindClose(t[2..]).value;
    var s := t[..k + 4] + rest;
    SamePiece(t, rest, k);
    ParseToken(s);
    assert s[k + 4..] == rest;
  }

  lemma SamePiece(t: string, rest: string, k: nat)
    requires k + 4 <= |t|
    ensures
      var s := t[..k + 4] + rest;
      TokenPiece(s, k) == TokenPiece(t, k) && Opens(s) == Opens(t) && Escapes(s) == Escapes(t)
  {
    var s := t[..k + 4] + rest;
    assert s[..k + 4] == t[..k + 4];
    assert s[2..k + 2] == t[2..k + 2];
  }

  lemma RenderedCons(p: Piece, tail: seq<Piece>, ctx: Context)
    ensures Show([p] + tail, ctx) == Shown(p, ctx) + Show(tail, ctx)
  {
  }

  lemma TailKeepsHoles(t: string, first: Context)
    requires Opens(t) && !Escapes(t) && FindClose(t[2..]) == None
    ensures SameHoles(t, first)
  {
    ParseToken(t);
    RenderedCons(Plain(t), [], first);
    assert t + [] == t;
    CellsCons(Plain(t), [], first);
    CellsCons(Plain(t), [], map[]);
  }

  lemma TokenKeepsHoles(t: string, first: Context, k: nat)
    requires Opens(t) && !Escapes(t) && FindClose(t[2..]) == Some(k) && k + 4 <= |t|
    requires SameHoles(t[k + 4..], first) && FillsInert(TokenPiece(t, k), first)
    ensures SameHoles(t, first)
  {
    var rest, p := t[k + 4..], TokenPiece(t, k);
    ParseToken(t);
    RenderedCons(p, Parse(rest), first);
    CellsCons(p, Parse(rest), first);
    if p.Hole? && p.name in first {
      InertPrefix(first[p.name], Rendered(rest, first));
    } else {
      TokenAgain(t, Rendered(rest, first));
      CellsCons(p, Parse(Rendered(rest, first)), map[]);
    }
  }

  lemma CharKeepsHoles(t: string, first: Context)
    requires t != [] && !Opens(t) && SameHoles(t[1..], first)
    ensures SameHoles(t, first)
  {
  }

  /** A template whose escape is never taken, with inert values for its holes, keeps its open holes. */
  lemma {:induction false} InertKeepsHoles(t: string, first: Context)
    requires NoEscape(Parse(t)) && AllInert(Parse(t), first)
    ensures SameHoles(t, first)
    decreases |t|
  {
    if t == [] {
    } else if Escapes(t) {
      EscapeTaken(t);
      assert false;
    } else if Opens(t) {
      ParseToken(t);
      match FindClose(t[2..])
      case None => TailKeepsHoles(t, first);
      case Some(k) =>
        PiecesTail(TokenPiece(t, k), Parse(t[k + 4..]), first);
        InertKeepsHoles(t[k + 4..], first);
        TokenKeepsHoles(t, first, k);
    } else {
      ParseChar(t);
      PiecesTail(Plain([t[0]]), Parse(t[1..]), first);
      InertKeepsHoles(t[1..], first);
      CharKeepsHoles(t, first);
    }
  }

  lemma EscapeTaken(t: string)
    requires Escapes(t)
    ensures !NoEscape(Parse(t))
  {
    ParseEscape(t);
    assert Parse(t)[0] == Escape;
  }

  lemma PiecesTail(p: Piece, tail: seq<Piece>, ctx: Context)
    requires NoEscape([p] + tail) && AllInert([p] + tail, ctx)
    ensures NoEscape(tail) && AllInert(tail, ctx) && FillsInert(p, ctx)
  {
    assert ([p] + tail)[0] == p;
    forall i | 0 <= i < |tail| ensures !tail[i].Escape? && FillsInert(tail[i], ctx) {
      assert tail[i] == ([p] + tail)[i + 1];
    }
  }

  /** Without an escape taken and with inert values for the holes, two passes equal one. */
  lemma TwoPassesMerge(t: string, first: Context, second: Context)
    requires NoEscape(Parse(t)) && AllInert(Parse(t), first)
    ensures Rendered(Rendered(t, first), second) == Rendered(t, second + first)
  {
    InertKeepsHoles(t, first);
    RenderedTwice(t, first, second);
  }

  /** The escape is undone by the first pass, so a second pass takes what follows for a token. */
  lemma EscapeDoesNotSurvive()
    ensures
      var t := ['{', '{', '{', '{', 'a', '}', '}'];
      && Rendered(t, map[]) == ['{', '{', 'a', '}', '}']
      && Rendered(Rendered(t, map[]), map[['a'] := ['x']]) == ['x']
      && Rendered(t, map[['a'] := ['x']] + map[]) == ['{', '{', 'a', '}', '}']
  {
    var t := ['{', '{', '{', '{', 'a', '}', '}'];
    var rest := ['a', '}', '}'];
    assert t[4..] == rest;
    ParseEscape(t);
    ParseChar(rest);
    assert rest[1..] == ['}', '}'];
    ParseChar(['}', '}']);
    assert ['}', '}'][1..] == ['}'];
    ParseChar(['}']);
    var tail := [Plain(['a'])] + ([Plain(['}'])] + ([Plain(['}'])] + []));
    assert Parse(rest) == tail;
    EscapeShown(t, map[]);
    EscapeShown(t, map[['a'] := ['x']] + map[]);
    var token := ['{', '{', 'a', '}', '}'];
    assert token[2..] == rest && FindClose(rest) == Some(1) by {
      assert rest[1..] == ['}', '}'];
    }
    ParseToken(token);
    assert token[2..3] == ['a'] && TrimStart(['a']) == ['a'] && TrimEnd(['a']) == ['a'];
    assert token[..5] == token && token[5..] == [];
    RenderedCons(Hole(token, ['a']), [], map[['a'] := ['x']]);
  }

  lemma EscapeShown(t: string, ctx: Context)
    requires Parse(t) == [Escape] + ([Plain(['a'])] + ([Plain(['}'])] + ([Plain(['}'])] + [])))
    ensures Rendered(t, ctx) == ['{', '{', 'a', '}', '}']
  {
    RenderedCons(Plain(['}']), [], ctx);
    RenderedCons(Plain(['}']), [Plain(['}'])] + [], ctx);
    RenderedCons(Plain(['a']), [Plain(['}'])] + ([Plain(['}'])] + []), ctx);
    RenderedCons(Escape, [Plain(['a'])] + ([Plain(['}'])] + ([Plain(['}'])] + [])), ctx);
  }

  // ----------------------------------------------------- what a template says

  /** A name as a token may hold it. */
  predicate Name(s: string) {
    Solid(s) && '{' !in s && '}' !in s
  }

  predicate Blanks(s: string) {
    Blank(s) && '{' !in s && '}' !in s
  }

  function Token(before: string, name: string, after: string): string {
    ['{', '{'] + (before + name + after) + ['}', '}']
  }

  lemma {:induction false} ClosesAfter(inside: string, rest: string)
    requires '}' !in inside
    ensures FindClose(inside + (['}', '}'] + rest)) == Some(|inside|)
  {
    var s := inside + (['}', '}'] + rest);
    if inside != [] {
      assert s[1..] == inside[1..] + (['}', '}'] + rest);
      ClosesAfter(inside[1..], rest);
    }
  }

  /** A token at the start of a template, with whatever is between its braces. */
  lemma TokenParses(inside: string, rest: string)
    requires '}' !in inside && '{' !in inside
    ensures
      var token := ['{', '{'] + inside + ['}', '}'];
      var name := Trim(inside);
      Parse(token + rest) == [if name == [] then Plain(token) else Hole(token, name)] + Parse(rest)
  {
    var t := ['{', '{'] + inside + ['}', '}'] + rest;
    assert t[2..] == inside + (['}', '}'] + rest);
    ClosesAfter(inside, rest);
    assert t[2..|inside| + 2] == inside;
    assert t[..|inside| + 4] == ['{', '{'] + inside + ['}', '}'];
    assert t[|inside| + 4..] == rest;
    assert t[2] == (inside + ['}', '}'])[0];
    ParseToken(t);
  }

  /** `{{name}}`, blanks around the name or not: replaced by its value, or kept as it is
      written and reported under its name. */
  lemma TokenSays(before: string, name: string, after: string, rest: string, ctx: Context)
    requires Blanks(before) && Blanks(after) && Name(name)
    ensures
      var token := Token(before, name, after);
      && Rendered(token + rest, ctx) == (if name in ctx then ctx[name] else token) + Rendered(rest, ctx)
      && Missing(Parse(token + rest), ctx, []) == Missing(Parse(rest), ctx, if name in ctx then [] else [name])
  {
    TokenParses(before + name + after, rest);
    TrimAround(before, name, after);
    FirstPiece(Token(before, name, after) + rest, Hole(Token(before, name, after), name), Parse(rest), ctx);
  }

  lemma FirstPiece(t: string, p: Piece, tail: seq<Piece>, ctx: Context)
    requires Parse(t) == [p] + tail
    ensures Rendered(t, ctx) == Shown(p, ctx) + Show(tail, ctx)
    ensures Missing(Parse(t), ctx, []) == Missing(tail, ctx, if p.Hole? && p.name !in ctx then [p.name] else [])
  {
    assert ([p] + tail)[1..] == tail;
    if p.Hole? {
      assert [] + [p.name] == [p.name];
    }
  }

  /** Braces around blanks are a typo: kept, and no name is missing. */
  lemma BlankTokenSays(inside: string, rest: string, ctx: Context)
    requires Blanks(inside)
    ensures
      var token := Token(inside, [], []);
      && Rendered(token + rest, ctx) == token + Rendered(rest, ctx)
      && Missing(Parse(token + rest), ctx, []) == Missing(Parse(rest), ctx, [])
  {
    assert inside + [] + [] == inside;
    TokenParses(inside, rest);
    TrimAround(inside, [], []);
    FirstPiece(Token(inside, [], []) + rest, Plain(Token(inside, [], [])), Parse(rest), ctx);
  }

  /** `{{{{` stands for two braces. */
  lemma EscapeSays(rest: string, ctx: Context)
    ensures Rendered(['{', '{', '{', '{'] + rest, ctx) == ['{', '{'] + Rendered(rest, ctx)
  {
    var t := ['{', '{', '{', '{'] + rest;
    assert t[4..] == rest;
    ParseEscape(t);
    RenderedCons(Escape, Parse(rest), ctx);
  }

  /** Text without braces is kept, and so is an unclosed token with all that follows. */
  lemma PlainSays(c: char, rest: string, ctx: Context)
    requires c != '{'
    ensures Rendered([c] + rest, ctx) == [c] + Rendered(rest, ctx)
  {
    var t := [c] + rest;
    assert t[1..] == rest;
    ParseChar(t);
    RenderedCons(Plain([c]), Parse(rest), ctx);
  }

  lemma UnclosedSays(tail: string, ctx: Context)
    requires FindClose(tail) == None && !(['{', '{'] <= tail)
    ensures Rendered(['{', '{'] + tail, ctx) == ['{', '{'] + tail
    ensures Missing(Parse(['{', '{'] + tail), ctx, []) == []
  {
    var t := ['{', '{'] + tail;
    assert t[2..] == tail;
    ParseToken(t);
    RenderedCons(Plain(t), [], ctx);
    assert t + [] == t;
  }
}
