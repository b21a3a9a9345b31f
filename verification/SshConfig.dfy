/**
 The OpenSSH client-configuration reader of ssh_config.rs: lines to directives,
 directives to `Host` blocks, blocks to one resolved entry per concrete host.
*/
module SshConfig {
  import opened Wrappers
  import opened Text
  import Decimal

  // ------------------------------------------------------------ lines, directives

  /** The keywords the reader knows; all others are ignored. */
  datatype Keyword = Host | HostName | User | Port | IdentityFile | PreferredAuthentications | Include | Other

  datatype Directive = Directive(keyword: Keyword, value: string)

  function KeywordOf(word: string): Keyword {
    var w := Lower(word);
    if w == "host" then Host
    else if w == "hostname" then HostName
    else if w == "user" then User
    else if w == "port" then Port
    else if w == "identityfile" then IdentityFile
    else if w == "preferredauthentications" then PreferredAuthentications
    else if w == "include" then Include
    else Other
  }

  function StripCr(line: string): string {
    if line != [] && line[|line| - 1] == '\r' then line[..|line| - 1] else line
  }

  /** `str::lines`: `\n` ends a line and takes one `\r` before it along. */
  function Lines(s: string): seq<string> {
    PieceLines(Split(s, '\n'))
  }

  function PieceLines(pieces: seq<string>): seq<string>
    requires pieces != []
  {
    var n := |pieces| - 1;
    Stripped(pieces, n) + if pieces[n] == [] then [] else [pieces[n]]
  }

  lemma PieceLinesCons(a: string, pieces: seq<string>)
    requires pieces != []
    ensures PieceLines([a] + pieces) == [StripCr(a)] + PieceLines(pieces)
  {
    var all, n := [a] + pieces, |pieces| - 1;
    assert all[|all| - 1] == pieces[n];
    StrippedCons(a, pieces, n);
    ConcatAssoc([StripCr(a)], Stripped(pieces, n), if pieces[n] == [] then [] else [pieces[n]]);
  }

  function Stripped(pieces: seq<string>, n: nat): seq<string>
    requires n <= |pieces|
  {
    seq(n, i requires 0 <= i < n => StripCr(pieces[i]))
  }

  lemma StrippedCons(a: string, pieces: seq<string>, n: nat)
    requires n <= |pieces|
    ensures Stripped([a] + pieces, n + 1) == [StripCr(a)] + Stripped(pieces, n)
  {
  }

  /** `strip_comment`: cut at the first `#` outside quotes. */
  function StripComment(line: string, inQuotes: bool := false): string {
    if line == [] then []
    else
      var quoted := if line[0] == '"' then !inQuotes else inQuotes;
      if line[0] == '#' && !quoted then [] else [line[0]] + StripComment(line[1..], quoted)
  }

  function Unquote(s: string): string {
    if |s| >= 2 && s[0] == '"' && s[|s| - 1] == '"' then s[1..|s| - 1] else s
  }

  function SplitKeywordValue(line: string): Option<(string, string)> {
    var sep := IndexWhere(line, c => c == '=' || IsSpace(c));
    if sep == |line| then None
    else
      var keyword := Trim(line[..sep]);
      var rest0 := Trim(line[sep + 1..]);
      var rest := if "=" <= rest0 then Trim(rest0[1..]) else rest0;
      if keyword == [] || rest == [] then None else Some((keyword, Unquote(rest)))
  }

  /** What one line says: nothing, or one directive, its keyword read in any case. */
  function LineDirective(line: string): seq<Directive> {
    match SplitKeywordValue(Trim(StripComment(line)))
    case None => []
    case Some(kv) => [Directive(KeywordOf(kv.0), kv.1)]
  }

  function LinesDirectives(lines: seq<string>): seq<Directive> {
    FlatMap(LineDirective, lines)
  }

  function Directives(content: string): seq<Directive> {
    LinesDirectives(Lines(content))
  }

  /** `split_host_patterns`: blank-separated tokens, quotes protecting blanks. */
  function Tokens(value: string, token: string := "", inQuotes: bool := false): seq<string> {
    if value == [] then (if token == [] then [] else [token])
    else if value[0] == '"' then Tokens(value[1..], token, !inQuotes)
    else if !inQuotes && (value[0] == ' ' || value[0] == '\t') then
      (if token == [] then [] else [token]) + Tokens(value[1..], "", inQuotes)
    else Tokens(value[1..], token + [value[0]], inQuotes)
  }

  // ----------------------------------------------------------------------- blocks

  datatype AuthType = Password | Key

  datatype Settings = Settings(
    hostName: Option<string>,
    user: Option<string>,
    port: Option<nat>,
    identityFiles: seq<string>,
    preferred: Option<seq<AuthType>>)

  const NO_SETTINGS := Settings(None, None, None, [], None)

  datatype RawBlock = RawBlock(orderIndex: nat, patterns: seq<string>, settings: Settings)

  function AuthOf(part: string): Option<AuthType> {
    var p := Lower(Trim(part));
    if p == "publickey" then Some(Key)
    else if p == "password" || p == "keyboard-interactive" then Some(Password)
    else None
  }

  function AuthList(parts: seq<string>, seen: seq<AuthType>): seq<AuthType> {
    if parts == [] then seen
    else
      match AuthOf(parts[0])
      case Some(a) => AuthList(parts[1..], if a in seen then seen else seen + [a])
      case None => AuthList(parts[1..], seen)
  }

  /** `parse_preferred_auths`: the known methods in order, `None` when there are none. */
  function PreferredAuths(value: string): Option<seq<AuthType>> {
    var auths := AuthList(Split(value, ','), []);
    if auths == [] then None else Some(auths)
  }

  // Reference reading of a block: the first usable value of each option among the
  // directives after its `Host` line and before the next one.

  function FirstOption<T>(ds: seq<Directive>, keyword: Keyword, parse: string -> Option<T>): Option<T> {
    if ds == [] then None
    else if ds[0].keyword == keyword && parse(ds[0].value).Some? then parse(ds[0].value)
    else FirstOption(ds[1..], keyword, parse)
  }

  function AllValues(ds: seq<Directive>, keyword: Keyword): seq<string> {
    if ds == [] then []
    else (if ds[0].keyword == keyword then [ds[0].value] else []) + AllValues(ds[1..], keyword)
  }

  function SettingsOf(ds: seq<Directive>): Settings {
    Settings(FirstOption(ds, HostName, v => Some(v)),
             FirstOption(ds, User, v => Some(v)),
             FirstOption(ds, Port, v => Decimal.ParseUnsigned(v, Decimal.PORT_MAX)),
             AllValues(ds, IdentityFile),
             FirstOption(ds, PreferredAuthentications, PreferredAuths))
  }

  /** A `Host` value with the directives up to the next `Host`. */
  datatype Section = Section(host: string, body: seq<Directive>)

  /** Every directive belongs to the latest `Host` line before it, if there is one. */
  function Sections(ds: seq<Directive>): seq<Section>
    decreases |ds|
  {
    if ds == [] then []
    else
      var before, d := Sections(ds[..|ds| - 1]), ds[|ds| - 1];
      if d.keyword == Host then before + [Section(d.value, [])]
      else if before == [] then []
      else
        var open := before[|before| - 1];
        before[..|before| - 1] + [open.(body := open.body + [d])]
  }

  function BlockOf(order: nat, s: Section): RawBlock {
    RawBlock(order, Tokens(s.host), SettingsOf(s.body))
  }

  function Blocks(ds: seq<Directive>): seq<RawBlock> {
    BlocksOf(Sections(ds))
  }

  // One more directive at the end of the file.

  lemma {:induction false} FirstOptionSnoc<T>(
      ds: seq<Directive>, d: Directive, keyword: Keyword, parse: string -> Option<T>)
    ensures FirstOption(ds + [d], keyword, parse) ==
            if FirstOption(ds, keyword, parse).Some? || d.keyword != keyword then FirstOption(ds, keyword, parse)
            else parse(d.value)
  {
    if ds != [] {
      FirstOptionSnoc(ds[1..], d, keyword, parse);
      assert (ds + [d])[1..] == ds[1..] + [d];
    }
  }

  lemma {:induction false} AllValuesSnoc(ds: seq<Directive>, d: Directive, keyword: Keyword)
    ensures AllValues(ds + [d], keyword) == AllValues(ds, keyword) + if d.keyword == keyword then [d.value] else []
  {
    if ds != [] {
      AllValuesSnoc(ds[1..], d, keyword);
      assert (ds + [d])[1..] == ds[1..] + [d];
    }
  }

  /** An open block after one more directive: a set option is never overwritten. */
  ghost function With(s: Settings, d: Directive): Settings {
    Settings(
      if s.hostName.Some? || d.keyword != HostName then s.hostName else Some(d.value),
      if s.user.Some? || d.keyword != User then s.user else Some(d.value),
      if s.port.Some? || d.keyword != Port then s.port else Decimal.ParseUnsigned(d.value, Decimal.PORT_MAX),
      s.identityFiles + (if d.keyword == IdentityFile then [d.value] else []),
      if s.preferred.Some? || d.keyword != PreferredAuthentications then s.preferred else PreferredAuths(d.value))
  }

  lemma SettingsSnoc(ds: seq<Directive>, d: Directive)
    ensures SettingsOf(ds + [d]) == With(SettingsOf(ds), d)
  {
    FirstOptionSnoc(ds, d, HostName, v => Some(v));
    FirstOptionSnoc(ds, d, User, v => Some(v));
    FirstOptionSnoc(ds, d, Port, v => Decimal.ParseUnsigned(v, Decimal.PORT_MAX));
    AllValuesSnoc(ds, d, IdentityFile);
    FirstOptionSnoc(ds, d, PreferredAuthentications, PreferredAuths);
  }

  /** The state of `parse_blocks` after the directives `ds`: the flushed blocks, and
      the patterns and settings of the block that is still open. */
  ghost predicate Parsed(ds: seq<Directive>, blocks: seq<RawBlock>, patterns: Option<seq<string>>, settings: Settings) {
    match patterns
    case None => blocks == [] && settings == NO_SETTINGS && Blocks(ds) == []
    case Some(p) => Blocks(ds) == blocks + [RawBlock(|blocks|, p, settings)]
  }

  lemma ParsedHost(
      ds: seq<Directive>, blocks: seq<RawBlock>, patterns: Option<seq<string>>, settings: Settings, h: Directive)
    requires Parsed(ds, blocks, patterns, settings) && h.keyword == Host
    ensures Parsed(ds + [h], Blocks(ds), Some(Tokens(h.value)), NO_SETTINGS)
  {
  }

  lemma ParsedOther(
      ds: seq<Directive>, blocks: seq<RawBlock>, patterns: Option<seq<string>>, settings: Settings, d: Directive)
    requires Parsed(ds, blocks, patterns, settings) && d.keyword != Host
    ensures Parsed(ds + [d], blocks, patterns, if patterns.Some? then With(settings, d) else settings)
  {
    BlocksOther(ds, d);
    if patterns.Some? {
      var all := Blocks(ds);
      assert all[..|all| - 1] == blocks && all[|all| - 1] == RawBlock(|blocks|, patterns.value, settings);
    }
  }

  lemma SectionsOther(ds: seq<Directive>, d: Directive)
    requires d.keyword != Host
    ensures
      var ss := Sections(ds);
      Sections(ds + [d]) ==
      if ss == [] then [] else ss[..|ss| - 1] + [ss[|ss| - 1].(body := ss[|ss| - 1].body + [d])]
  {
    assert (ds + [d])[..|ds|] == ds;
  }

  /** A directive that opens no block changes the last one only. */
  lemma BlocksOther(ds: seq<Directive>, d: Directive)
    requires d.keyword != Host
    ensures
      var all := Blocks(ds);
      Blocks(ds + [d]) ==
      if all == [] then [] else all[..|all| - 1] + [all[|all| - 1].(settings := With(all[|all| - 1].settings, d))]
  {
    SectionsOther(ds, d);
    var ss := Sections(ds);
    if ss != [] {
      BlocksWithLast(ss, d);
    }
  }

  function BlocksOf(ss: seq<Section>): seq<RawBlock> {
    seq(|ss|, k requires 0 <= k < |ss| => BlockOf(k, ss[k]))
  }

  lemma BlocksWithLast(ss: seq<Section>, d: Directive)
    requires ss != []
    ensures
      var n := |ss| - 1;
      var all := BlocksOf(ss);
      BlocksOf(ss[..n] + [ss[n].(body := ss[n].body + [d])]) ==
      all[..n] + [all[n].(settings := With(all[n].settings, d))]
  {
    SettingsSnoc(ss[|ss| - 1].body, d);
  }

  /** The loop of `parse_blocks` as a fold: what it holds after the directives `ds`. */
  datatype Loop = Loop(blocks: seq<RawBlock>, patterns: Option<seq<string>>, open: Settings)

  ghost function Flush(l: Loop): seq<RawBlock> {
    if l.patterns.Some? then l.blocks + [RawBlock(|l.blocks|, l.patterns.value, l.open)] else l.blocks
  }

  ghost function Advance(l: Loop, d: Directive): Loop {
    if d.keyword == Host then Loop(Flush(l), Some(Tokens(d.value)), NO_SETTINGS)
    else if l.patterns.None? then l
    else l.(open := With(l.open, d))
  }

  ghost function Folded(ds: seq<Directive>): Loop {
    if ds == [] then Loop([], None, NO_SETTINGS) else Advance(Folded(ds[..|ds| - 1]), ds[|ds| - 1])
  }

  lemma {:induction false} FoldedIsParsed(ds: seq<Directive>)
    ensures Parsed(ds, Folded(ds).blocks, Folded(ds).patterns, Folded(ds).open)
  {
    if ds != [] {
      var init, d := ds[..|ds| - 1], ds[|ds| - 1];
      FoldedIsParsed(init);
      var l := Folded(init);
      assert ds == init + [d];
      if d.keyword == Host {
        ParsedHost(init, l.blocks, l.patterns, l.open, d);
      } else {
        ParsedOther(init, l.blocks, l.patterns, l.open, d);
      }
    }
  }

  lemma FoldedSnoc(ds: seq<Directive>, d: Directive)
    ensures Folded(ds + [d]) == Advance(Folded(ds), d)
  {
  }

  /** `parse_blocks`: one pass over the lines, flushing a block at each `Host`. */
  method ParseBlocks(content: string) returns (blocks: seq<RawBlock>)
    ensures blocks == Blocks(Directives(content))
  {
    blocks := ParseLines(Lines(content), LineDirective);
  }

  /** Its loop, for any reader of single lines. */
  method ParseLines(lines: seq<string>, read: string -> seq<Directive>) returns (blocks: seq<RawBlock>)
    requires forall line :: |read(line)| <= 1
    ensures blocks == Blocks(FlatMap(read, lines))
  {
    blocks := [];
    var patterns: Option<seq<string>> := None;
    var open := NO_SETTINGS;
    ghost var ds: seq<Directive> := [];
    for i := 0 to |lines|
      invariant ds == FlatMap(read, lines[..i])
      invariant Loop(blocks, patterns, open) == Folded(ds)
    {
      var parsed := read(lines[i]);
      FlatMapNext(read, lines, i);
      if parsed == [] {
        assert ds + [] == ds;
        continue;
      }
      var Directive(keyword, value) := parsed[0];
      assert parsed == [parsed[0]];
      FoldedSnoc(ds, parsed[0]);
      ds := ds + [parsed[0]];
      if keyword == Host {
        if patterns.Some? {
          blocks := blocks + [RawBlock(|blocks|, patterns.value, open)];
        }
        open := NO_SETTINGS;
        patterns := Some(Tokens(value));
        continue;
      }
      if patterns.None? {
        continue;
      }
      if keyword == HostName && open.hostName.None? {
        open := open.(hostName := Some(value));
      } else if keyword == User && open.user.None? {
        open := open.(user := Some(value));
      } else if keyword == Port && open.port.None? {
        open := open.(port := Decimal.ParseUnsigned(value, Decimal.PORT_MAX));
      } else if keyword == IdentityFile {
        open := open.(identityFiles := open.identityFiles + [value]);
      } else if keyword == PreferredAuthentications && open.preferred.None? {
        open := open.(preferred := PreferredAuths(value));
      }
    }
    assert lines[..|lines|] == lines;
    FoldedIsParsed(ds);
    if patterns.Some? {
      blocks := blocks + [RawBlock(|blocks|, patterns.value, open)];
    }
  }

  /** In a block the first value of an option counts, and identity files add up. */
  lemma {:induction false} FirstSettingWins(ds: seq<Directive>, more: seq<Directive>)
    ensures
      var a, b := SettingsOf(ds), SettingsOf(ds + more);
      && (a.hostName.Some? ==> b.hostName == a.hostName) && (a.user.Some? ==> b.user == a.user)
      && (a.port.Some? ==> b.port == a.port) && (a.preferred.Some? ==> b.preferred == a.preferred)
      && a.identityFiles <= b.identityFiles
  {
    if more == [] {
      assert ds + more == ds;
    } else {
      var n := |more| - 1;
      FirstSettingWins(ds, more[..n]);
      SettingsSnoc(ds + more[..n], more[n]);
      assert ds + more == ds + more[..n] + [more[n]];
    }
  }
}
