/**
 What the text of an OpenSSH client configuration says, on characters: the words the
 reader of ssh_config.rs knows, and what lines, quotes, comments and line endings mean.
*/
module SshText {
  import opened Wrappers
  import opened Text
  import opened SshPatterns
  import opened SshConfig
  import opened SshResolve
  import opened SshParse
  import Decimal

  // ------------------------------------------------------------------ the word table

  /** The seven words, in any case, and no other. */
  lemma KeywordTable(word: string)
    ensures Lower(word) == "host" <==> KeywordOf(word) == Host
    ensures Lower(word) == "hostname" <==> KeywordOf(word) == HostName
    ensures Lower(word) == "user" <==> KeywordOf(word) == User
    ensures Lower(word) == "port" <==> KeywordOf(word) == Port
    ensures Lower(word) == "identityfile" <==> KeywordOf(word) == IdentityFile
    ensures Lower(word) == "preferredauthentications" <==> KeywordOf(word) == PreferredAuthentications
    ensures Lower(word) == "include" <==> KeywordOf(word) == Include
  {
  }

  /** What one directive sets in its block. */
  lemma SettingTable(v: string)
    ensures SettingsOf([Directive(HostName, v)]) == NO_SETTINGS.(hostName := Some(v))
    ensures SettingsOf([Directive(User, v)]) == NO_SETTINGS.(user := Some(v))
    ensures SettingsOf([Directive(IdentityFile, v)]) == NO_SETTINGS.(identityFiles := [v])
    ensures SettingsOf([Directive(PreferredAuthentications, v)]) == NO_SETTINGS.(preferred := PreferredAuths(v))
    ensures SettingsOf([Directive(Include, v)]) == NO_SETTINGS == SettingsOf([Directive(Other, v)])
  {
    OneSetting(Directive(HostName, v));
    OneSetting(Directive(User, v));
    OneSetting(Directive(IdentityFile, v));
    OneSetting(Directive(PreferredAuthentications, v));
    OneSetting(Directive(Include, v));
    OneSetting(Directive(Other, v));
  }

  lemma PortSetting(v: string)
    ensures SettingsOf([Directive(Port, v)]) == NO_SETTINGS.(port := Decimal.ParseUnsigned(v, 65535))
  {
    OneSetting(Directive(Port, v));
  }

  lemma OneSetting(d: Directive)
    ensures SettingsOf([d]) == With(NO_SETTINGS, d)
  {
    SettingsSnoc([], d);
    assert [] + [d] == [d];
  }

  /** A port is read from its decimal digits, up to 65535. */
  lemma PortDigits(n: nat)
    ensures Decimal.ParseUnsigned(Decimal.Format(n), 65535) == if n <= 65535 then Some(n) else None
  {
    Decimal.ParseFormat(n, n);
    Decimal.ValueFormat(n);
  }

  // ------------------------------------------------------------------------ one line

  /** A keyword as a line may spell it. */
  predicate Word(s: string) {
    s != [] && forall i :: 0 <= i < |s| ==> !IsSpace(s[i]) && s[i] !in {'=', '#', '"'}
  }

  predicate Clean(s: string) {
    '#' !in s && '"' !in s
  }

  /** A value that needs no quotes. */
  predicate Bare(v: string) {
    Solid(v) && Clean(v) && v[0] != '='
  }

  /** What may stand between keyword and value: blanks, an equals sign, or both. */
  function Separator(before: string, equals: bool, after: string): string {
    before + (if equals then "=" else "") + after
  }

  predicate IsComment(s: string) {
    s == [] || s[0] == '#'
  }

  lemma {:induction false} StripClean(a: string, rest: string)
    requires Clean(a)
    ensures StripComment(a + rest) == a + StripComment(rest)
  {
    if a == [] {
      assert a + rest == rest;
    } else {
      assert (a + rest)[1..] == a[1..] + rest;
      assert a[0] in a;
      StripClean(a[1..], rest);
      assert [a[0]] + (a[1..] + StripComment(rest)) == a + StripComment(rest);
    }
  }

  lemma {:induction false} StripInside(v: string, rest: string)
    requires '"' !in v
    ensures StripComment(v + ['"'] + rest, true) == v + ['"'] + StripComment(rest)
  {
    var s := v + ['"'] + rest;
    if v == [] {
      assert s[1..] == rest;
    } else {
      assert s[1..] == v[1..] + ['"'] + rest;
      StripInside(v[1..], rest);
      assert [v[0]] + (v[1..] + ['"'] + StripComment(rest)) == v + ['"'] + StripComment(rest);
    }
  }

  function Quoted(v: string): string {
    ['"'] + v + ['"']
  }

  /** Quotes protect a comment sign. */
  lemma StripQuoted(v: string, rest: string)
    requires '"' !in v
    ensures StripComment(Quoted(v) + rest) == Quoted(v) + StripComment(rest)
  {
    var s := Quoted(v) + rest;
    assert s[1..] == v + ['"'] + rest;
    StripInside(v, rest);
    assert ['"'] + (v + ['"'] + StripComment(rest)) == Quoted(v) + StripComment(rest);
  }

  /** `split_keyword_value` on a keyword, a separator and a value as written. */
  lemma SplitsAt(word: string, before: string, equals: bool, after: string, written: string)
    requires Word(word) && Blank(before) && Blank(after) && (equals || before != [])
    requires Solid(written) && written[0] != '='
    ensures SplitKeywordValue(word + Separator(before, equals, after) + written) == Some((word, Unquote(written)))
  {
    var line := word + Separator(before, equals, after) + written;
    FirstSeparator(word, Separator(before, equals, after) + written);
    ConcatAssoc(word, Separator(before, equals, after), written);
    assert line[..|word|] == word;
    TrimAround([], word, []);
    assert [] + word + [] == word;
    AfterSeparator(before, equals, after, written);
    assert line[|word| + 1..] == (Separator(before, equals, after) + written)[1..];
  }

  lemma FirstSeparator(word: string, rest: string)
    requires Word(word) && rest != [] && (rest[0] == '=' || IsSpace(rest[0]))
    ensures IndexWhere(word + rest, c => c == '=' || IsSpace(c)) == |word|
  {
    IndexWhereConcat(word, rest, c => c == '=' || IsSpace(c));
  }

  /** What is left of the value, past the first character of the separator. */
  lemma AfterSeparator(before: string, equals: bool, after: string, written: string)
    requires Blank(before) && Blank(after) && (equals || before != [])
    requires Solid(written) && written[0] != '='
    ensures
      var rest := Trim((Separator(before, equals, after) + written)[1..]);
      (if "=" <= rest then Trim(rest[1..]) else rest) == written
  {
    var s := Separator(before, equals, after) + written;
    if before == [] {
      assert s[1..] == after + written + [];
      TrimAround(after, written, []);
    } else if !equals {
      assert s[1..] == (before[1..] + after) + written + [];
      TrimAround(before[1..] + after, written, []);
    } else {
      var core := "=" + after + written;
      assert s[1..] == before[1..] + core + [];
      TrimAround(before[1..], core, []);
      assert core[1..] == after + written + [];
      TrimAround(after, written, []);
    }
  }

  /** A line with a bare value, in any layout and with or without a comment. */
  lemma BareLine(
      pre: string, word: string, before: string, equals: bool, after: string, v: string, post: string, comment: string)
    requires Blank(pre) && Blank(before) && Blank(after) && Blank(post) && (equals || before != [])
    requires Word(word) && Bare(v) && IsComment(comment)
    ensures
      LineDirective(pre + (word + Separator(before, equals, after) + v) + post + comment) ==
      [Directive(KeywordOf(word), v)]
  {
    var core := word + Separator(before, equals, after) + v;
    assert Clean(pre + core + post);
    StripClean(pre + core + post, comment);
    assert pre + core + post + [] == pre + core + post;
    TrimAround(pre, core, post);
    SplitsAt(word, before, equals, after, v);
  }

  /** A line with a quoted value: whatever is in the quotes is the value. */
  lemma QuotedLine(
      pre: string, word: string, before: string, equals: bool, after: string, v: string, post: string, comment: string)
    requires Blank(pre) && Blank(before) && Blank(after) && Blank(post) && (equals || before != [])
    requires Word(word) && '"' !in v && IsComment(comment)
    ensures
      LineDirective(pre + (word + Separator(before, equals, after) + Quoted(v)) + post + comment) ==
      [Directive(KeywordOf(word), v)]
  {
    var sep := Separator(before, equals, after);
    var core := word + sep + Quoted(v);
    StripQuotedLine(pre, word, sep, v, post, comment);
    TrimAround(pre, core, post);
    SplitsAt(word, before, equals, after, Quoted(v));
    assert Quoted(v)[1..|Quoted(v)| - 1] == v;
  }

  lemma StripQuotedLine(pre: string, word: string, sep: string, v: string, post: string, comment: string)
    requires Clean(pre) && Clean(word) && Clean(sep) && Clean(post) && '"' !in v && IsComment(comment)
    ensures StripComment(pre + (word + sep + Quoted(v)) + post + comment) == pre + (word + sep + Quoted(v)) + post
  {
    var head := pre + word + sep;
    StripClean(head, Quoted(v) + (post + comment));
    StripQuoted(v, post + comment);
    StripClean(post, comment);
    assert post + [] == post;
    Regroup(pre, word, sep, Quoted(v), post, comment);
    Regroup(pre, word, sep, Quoted(v), post, []);
  }

  lemma Regroup(a: string, b: string, c: string, d: string, e: string, f: string)
    ensures a + (b + c + d) + e + f == a + b + c + (d + (e + f))
    ensures f == [] ==> a + (b + c + d) + e == a + b + c + (d + e)
  {
  }

  /** A blank or comment line, and a lone word, say nothing. */
  lemma SilentLine(pre: string, word: string, post: string, comment: string)
    requires Blank(pre) && Blank(post) && (word == [] || Word(word)) && IsComment(comment)
    ensures LineDirective(pre + word + post + comment) == []
  {
    StripClean(pre + word + post, comment);
    assert pre + word + post + [] == pre + word + post;
    TrimAround(pre, word, post);
    IndexWhereConcat(word, [], c => c == '=' || IsSpace(c));
  }

  // ------------------------------------------------------------------- token lists

  /** A pattern or a path as a list may hold it. */
  predicate Plain(s: string) {
    s != [] && forall i :: 0 <= i < |s| ==> s[i] !in {' ', '\t', '"'}
  }

  lemma {:induction false} TokensTake(w: string, rest: string, token: string)
    requires w == [] || Plain(w)
    ensures Tokens(w + rest, token) == Tokens(rest, token + w)
  {
    if w == [] {
      assert w + rest == rest && token + w == token;
    } else {
      assert (w + rest)[1..] == w[1..] + rest;
      TokensTake(w[1..], rest, token + [w[0]]);
      assert token + [w[0]] + w[1..] == token + w;
    }
  }

  lemma {:induction false} TokensInside(v: string, rest: string, token: string)
    requires '"' !in v
    ensures Tokens(v + ['"'] + rest, token, true) == Tokens(rest, token + v)
  {
    var s := v + ['"'] + rest;
    if v == [] {
      assert s[1..] == rest && token + v == token;
    } else {
      assert s[1..] == v[1..] + ['"'] + rest;
      TokensInside(v[1..], rest, token + [v[0]]);
      assert token + [v[0]] + v[1..] == token + v;
    }
  }

  /** Quotes make one token of what they hold, blanks included. */
  lemma TokensOfQuoted(v: string)
    requires v != [] && '"' !in v
    ensures Tokens(Quoted(v)) == [v]
  {
    assert Quoted(v)[1..] == v + ['"'] + [];
    TokensInside(v, [], []);
    assert [] + v == v;
  }

  /** Blanks separate, however many. */
  lemma TokensSkip(blank: char, rest: string)
    requires blank == ' ' || blank == '\t'
    ensures Tokens([blank] + rest) == Tokens(rest)
  {
    assert ([blank] + rest)[1..] == rest;
  }

  lemma {:induction false} TokensOfJoined(ts: seq<string>)
    requires forall i :: 0 <= i < |ts| ==> Plain(ts[i])
    ensures Tokens(Join(ts, ' ')) == ts
  {
    if |ts| == 1 {
      TokensTake(ts[0], [], []);
      assert ts[0] + [] == ts[0] && [] + ts[0] == ts[0];
    } else if ts != [] {
      var rest := Join(ts[1..], ' ');
      TokensTake(ts[0], [' '] + rest, []);
      assert ts[0] + [' '] + rest == ts[0] + ([' '] + rest) && [] + ts[0] == ts[0];
      assert ([' '] + rest)[1..] == rest;
      TokensOfJoined(ts[1..]);
    }
  }

  /** `is_wildcard_pattern`. */
  lemma WildcardChars(q: string)
    ensures IsWildcard(q) <==> '*' in q || '?' in q || (q != [] && q[0] == '!')
  {
  }

  // ----------------------------------------------------------- authentication lists

  /** The three methods the reader maps, in any case and with blanks around. */
  lemma AuthTable(part: string)
    ensures Lower(Trim(part)) == "publickey" <==> AuthOf(part) == Some(Key)
    ensures Lower(Trim(part)) == "password" || Lower(Trim(part)) == "keyboard-interactive" <==>
            AuthOf(part) == Some(Password)
  {
  }

  /** Each known method once, in the order in which the list first names it. */
  lemma {:induction false} AuthListOk(parts: seq<string>, seen: seq<AuthType>)
    requires forall i, j :: 0 <= i < j < |seen| ==> seen[i] != seen[j]
    ensures
      var out := AuthList(parts, seen);
      && (forall i, j :: 0 <= i < j < |out| ==> out[i] != out[j])
      && (forall a :: a in out <==> a in seen || exists k :: 0 <= k < |parts| && AuthOf(parts[k]) == Some(a))
  {
    if parts != [] {
      var a := AuthOf(parts[0]);
      var next := if a.Some? && a.value !in seen then seen + [a.value] else seen;
      AuthListOk(parts[1..], next);
      forall b ensures b in AuthList(parts, seen) <==>
                       b in seen || exists k :: 0 <= k < |parts| && AuthOf(parts[k]) == Some(b) {
        if k :| 0 <= k < |parts| && AuthOf(parts[k]) == Some(b) {
          assert k > 0 ==> parts[1..][k - 1] == parts[k];
        }
        if k :| 0 <= k < |parts[1..]| && AuthOf(parts[1..][k]) == Some(b) {
          assert parts[k + 1] == parts[1..][k];
        }
      }
    }
  }

  /** More parts only add at the end. */
  lemma {:induction false} AuthListGrows(a: seq<string>, b: seq<string>, seen: seq<AuthType>)
    ensures AuthList(a + b, seen) == AuthList(b, AuthList(a, seen)) && seen <= AuthList(a, seen)
  {
    if a == [] {
      assert a + b == b;
    } else {
      assert (a + b)[1..] == a[1..] + b;
      var t := AuthOf(a[0]);
      AuthListGrows(a[1..], b, if t.Some? && t.value !in seen then seen + [t.value] else seen);
    }
  }

  /** A value with no known method counts as no value at all. */
  lemma PreferredSays(v: string)
    ensures PreferredAuths(v).Some? ==> PreferredAuths(v).value == AuthList(Split(v, ','), [])
    ensures
      PreferredAuths(v).None? <==> forall k :: 0 <= k < |Split(v, ',')| ==> AuthOf(Split(v, ',')[k]).None?
  {
    var parts := Split(v, ',');
    AuthListOk(parts, []);
    if k :| 0 <= k < |parts| && AuthOf(parts[k]).Some? {
      assert AuthOf(parts[k]).value in AuthList(parts, []);
    }
    if PreferredAuths(v).Some? {
      assert PreferredAuths(v).value[0] in AuthList(parts, []);
    }
  }

  // -------------------------------------------------------------------- whole files

  /** A line feed ends a line, and takes one carriage return before it along. */
  lemma LinesCons(a: string, rest: string)
    requires '\n' !in a
    ensures Lines(a + ['\n'] + rest) == [StripCr(a)] + Lines(rest)
    ensures Lines(a) == if a == [] then [] else [a]
  {
    SplitPrefix(a, rest, '\n');
    PieceLinesCons(a, Split(rest, '\n'));
    LastPiece(a);
  }

  lemma StripCrSays(a: string)
    ensures StripCr(a + ['\r']) == a && ('\r' !in a ==> StripCr(a) == a)
  {
  }

  lemma LastPiece(a: string)
    ensures PieceLines([a]) == if a == [] then [] else [a]
  {
  }

  /** The text of a list of lines. */
  function TextOf(lines: seq<string>): string {
    if lines == [] then [] else lines[0] + ['\n'] + TextOf(lines[1..])
  }

  /** A file says what its lines say, in order. */
  lemma {:induction false} FileSays(lines: seq<string>)
    requires forall i :: 0 <= i < |lines| ==> '\n' !in lines[i] && '\r' !in lines[i]
    ensures Directives(TextOf(lines)) == FlatMap(LineDirective, lines)
  {
    if lines == [] {
      LinesCons([], []);
    } else {
      FileSays(lines[1..]);
      LinesCons(lines[0], TextOf(lines[1..]));
      assert StripCr(lines[0]) == lines[0];
      FlatMapConcat(LineDirective, [lines[0]], Lines(TextOf(lines[1..])));
      FlatMapOne(LineDirective, lines[0]);
    }
  }

  lemma {:induction false} PlainEndings(a: string, rest: string)
    requires '\r' !in a
    ensures NormaliseLineEndings(a + rest) == a + NormaliseLineEndings(rest)
  {
    if a == [] {
      assert a + rest == rest;
    } else {
      assert (a + rest)[1..] == a[1..] + rest;
      PlainEndings(a[1..], rest);
      assert [a[0]] + (a[1..] + NormaliseLineEndings(rest)) == a + NormaliseLineEndings(rest);
    }
  }

  /** CRLF and bare CR become LF, and nothing else changes. */
  lemma EndingsOf(a: string, rest: string)
    requires '\r' !in a
    ensures NormaliseLineEndings(a) == a
    ensures NormaliseLineEndings(a + (['\r', '\n'] + rest)) == a + (['\n'] + NormaliseLineEndings(rest))
    ensures rest == [] || rest[0] != '\n' ==>
              NormaliseLineEndings(a + (['\r'] + rest)) == a + (['\n'] + NormaliseLineEndings(rest))
  {
    PlainEndings(a, []);
    assert a + [] == a;
    PlainEndings(a, ['\r', '\n'] + rest);
    CrLf(rest);
    PlainEndings(a, ['\r'] + rest);
    if rest == [] || rest[0] != '\n' {
      BareCr(rest);
    }
  }

  lemma CrLf(rest: string)
    ensures NormaliseLineEndings(['\r', '\n'] + rest) == ['\n'] + NormaliseLineEndings(rest)
  {
    assert (['\r', '\n'] + rest)[2..] == rest;
  }

  lemma BareCr(rest: string)
    requires rest == [] || rest[0] != '\n'
    ensures NormaliseLineEndings(['\r'] + rest) == ['\n'] + NormaliseLineEndings(rest)
  {
    assert (['\r'] + rest)[1..] == rest;
  }

  // ------------------------------------------------------------------ text to entry

  /** `keyword value`. */
  function Line(word: string, v: string): string {
    word + Separator([' '], false, []) + v
  }

  lemma LineSays(word: string, v: string)
    requires Word(word) && Bare(v)
    ensures LineDirective(Line(word, v)) == [Directive(KeywordOf(word), v)]
  {
    var line := Line(word, v);
    StripClean(line, []);
    assert line + [] == line;
    TrimSolid(line);
    SplitsAt(word, [' '], false, [], v);
  }

  lemma TrimSolid(s: string)
    requires Solid(s)
    ensures Trim(s) == s
  {
  }

  lemma FlatMapThree<A, B>(f: A -> seq<B>, a: A, b: A, c: A)
    ensures FlatMap(f, [a, b, c]) == f(a) + f(b) + f(c)
  {
    assert [a, b, c] == [a] + [b] + [c];
    FlatMapConcat(f, [a] + [b], [c]);
    FlatMapConcat(f, [a], [b]);
    FlatMapOne(f, a);
    FlatMapOne(f, b);
    FlatMapOne(f, c);
  }

  predicate OneLineBare(s: string) {
    Bare(s) && '\n' !in s && '\r' !in s
  }

  /** Three words that spell `host`, `hostname` and `user`, in any case. */
  predicate Spell(a: string, b: string, c: string) {
    Word(a) && Lower(a) == "host" && Word(b) && Lower(b) == "hostname" && Word(c) && Lower(c) == "user"
  }

  lemma SpellKeywords(a: string, b: string, c: string)
    requires Spell(a, b, c)
    ensures KeywordOf(a) == Host && KeywordOf(b) == HostName && KeywordOf(c) == User
  {
    KeywordTable(a);
    KeywordTable(b);
    KeywordTable(c);
  }

  lemma ThreeSay(a: string, b: string, c: string, h: string, x: string, y: string)
    requires Word(a) && Word(b) && Word(c) && OneLineBare(h) && OneLineBare(x) && OneLineBare(y)
    ensures Directives(TextOf([Line(a, h), Line(b, x), Line(c, y)])) ==
            [Directive(KeywordOf(a), h), Directive(KeywordOf(b), x), Directive(KeywordOf(c), y)]
  {
    LineSays(a, h);
    LineSays(b, x);
    LineSays(c, y);
    LineFits(a, h);
    LineFits(b, x);
    LineFits(c, y);
    FileOfThree(Line(a, h), Line(b, x), Line(c, y));
  }

  lemma LineFits(word: string, v: string)
    requires Word(word) && OneLineBare(v)
    ensures '\n' !in Line(word, v) && '\r' !in Line(word, v)
  {
  }

  lemma FileOfThree(a: string, b: string, c: string)
    requires '\n' !in a && '\n' !in b && '\n' !in c && '\r' !in a && '\r' !in b && '\r' !in c
    ensures Directives(TextOf([a, b, c])) == LineDirective(a) + LineDirective(b) + LineDirective(c)
  {
    FileSays([a, b, c]);
    FlatMapThree(LineDirective, a, b, c);
  }

  lemma BlockOfHost(h: string)
    requires Plain(h)
    ensures Blocks([Directive(Host, h)]) == [RawBlock(0, [h], NO_SETTINGS)]
  {
    TokensTake(h, [], []);
    assert h + [] == h && [] + h == h;
    assert [Directive(Host, h)][..0] == [];
    assert Sections([Directive(Host, h)]) == [Section(h, [])];
    assert SettingsOf([]) == NO_SETTINGS;
  }

  lemma OneBlockMore(ds: seq<Directive>, b: RawBlock, d: Directive)
    requires Blocks(ds) == [b] && d.keyword != Host
    ensures Blocks(ds + [d]) == [b.(settings := With(b.settings, d))]
  {
    BlocksOther(ds, d);
  }

  lemma BlockOfThree(h: string, x: string, y: string)
    requires Plain(h)
    ensures Blocks([Directive(Host, h), Directive(HostName, x), Directive(User, y)]) ==
            [RawBlock(0, [h], NO_SETTINGS.(hostName := Some(x), user := Some(y)))]
  {
    var d1, d2, d3 := Directive(Host, h), Directive(HostName, x), Directive(User, y);
    BlockOfHost(h);
    var s2, s3 := NO_SETTINGS.(hostName := Some(x)), NO_SETTINGS.(hostName := Some(x), user := Some(y));
    assert With(NO_SETTINGS, d2) == s2 && With(s2, d3) == s3;
    OneBlockMore([d1], RawBlock(0, [h], NO_SETTINGS), d2);
    assert [d1] + [d2] == [d1, d2];
    OneBlockMore([d1, d2], RawBlock(0, [h], s2), d3);
    assert [d1, d2] + [d3] == [d1, d2, d3];
  }

  lemma EntryOfBlock(b: RawBlock, h: string, entries: seq<HostEntry>)
    requires b.patterns == [h] && !IsWildcard(h) && EntriesOk([b], entries)
    ensures entries == [HostEntry(h, b.settings)]
  {
    FlatMapOne((q: string) => if IsWildcard(q) then [] else [ConcreteHost(0, q)], h);
    assert ConcreteHosts([b], 1) == [ConcreteHost(0, h)];
    var keep := Consulted([b], 0, h);
    assert 0 in keep;
    assert Gather([b], keep, 1) == NO_SETTINGS;
    CombineLaws(b.settings, b.settings, b.settings);
    assert Gather([b], keep) == b.settings;
  }

  /** From text to entry: a host name and a user, each in its own place. */
  lemma EntryOfText(a: string, b: string, c: string, h: string, x: string, y: string, entries: seq<HostEntry>)
    requires Spell(a, b, c) && OneLineBare(h) && OneLineBare(x) && OneLineBare(y) && Plain(h) && !IsWildcard(h)
    requires EntriesOk(Blocks(Directives(TextOf([Line(a, h), Line(b, x), Line(c, y)]))), entries)
    ensures entries == [HostEntry(h, NO_SETTINGS.(hostName := Some(x), user := Some(y)))]
  {
    SpellKeywords(a, b, c);
    ThreeSay(a, b, c, h, x, y);
    BlockOfThree(h, x, y);
    EntryOfBlock(RawBlock(0, [h], NO_SETTINGS.(hostName := Some(x), user := Some(y))), h, entries);
  }
}
