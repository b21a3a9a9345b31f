/**
 One line of a known_hosts file: `parse_line` and `is_hashed_hosts_line` of
 known_hosts_parser.rs.  Whether a key body is standard base64 is the parameter `valid`.
*/
module KnownHostsLines {
  import opened Wrappers
  import opened Text
  import opened Decimal
  import opened HostSpec

  datatype Entry = Entry(hostPort: string, keyType: string, key: string)

  /** A word: non-empty, without white space. */
  predicate Token(s: string) {
    s != [] && forall i :: 0 <= i < |s| ==> !IsSpace(s[i])
  }

  /** `split_whitespace`. */
  function Words(s: string): seq<string>
    decreases |s|
  {
    if s == [] then []
    else if IsSpace(s[0]) then Words(s[1..])
    else
      var n := IndexWhere(s, IsSpace);
      [s[..n]] + Words(s[n..])
  }

  function DropMarkers(parts: seq<string>): seq<string> {
    if parts != [] && "@" <= parts[0] then DropMarkers(parts[1..]) else parts
  }

  function SpecEntry(spec: string, keyType: string, key: string): seq<Entry> {
    match NormaliseHostSpec(spec)
    case None => []
    case Some(hostPort) => [Entry(hostPort, keyType, key)]
  }

  function SpecEntries(specs: seq<string>, keyType: string, key: string): seq<Entry> {
    FlatMap(spec => SpecEntry(spec, keyType, key), specs)
  }

  function PartsEntries(valid: string -> bool, parts: seq<string>): seq<Entry> {
    if |parts| < 3 || "|1|" <= parts[0] || parts[2] == [] || !valid(parts[2]) then []
    else SpecEntries(Split(parts[0], ','), parts[1], parts[2])
  }

  /** The entries of a line. */
  function LineEntries(valid: string -> bool, line: string): seq<Entry> {
    var trimmed := Trim(line);
    if trimmed == [] || trimmed[0] == '#' then [] else PartsEntries(valid, DropMarkers(Words(trimmed)))
  }

  /** `is_hashed_hosts_line`. */
  predicate IsHashedHostsLine(line: string) {
    var trimmed := Trim(line);
    var end := IndexWhere(trimmed, IsSpace);
    trimmed != [] && trimmed[0] != '#' && end < |trimmed| && "|1|" <= trimmed[..end]
  }

  method ParseLine(valid: string -> bool, line: string) returns (out: seq<Entry>)
    ensures out == LineEntries(valid, line)
  {
    out := [];
    var trimmed := Trim(line);
    if trimmed == [] || trimmed[0] == '#' {
      return;
    }
    var parts := Words(trimmed);
    while parts != [] && "@" <= parts[0]
      invariant DropMarkers(parts) == DropMarkers(Words(trimmed))
      decreases |parts|
    {
      parts := parts[1..];
    }
    if |parts| < 3 || "|1|" <= parts[0] || parts[2] == [] || !valid(parts[2]) {
      return;
    }
    var specs := Split(parts[0], ',');
    ghost var f := spec => SpecEntry(spec, parts[1], parts[2]);
    for i := 0 to |specs|
      invariant out == FlatMap(f, specs[..i])
    {
      FlatMapNext(f, specs, i);
      var normal := NormaliseHostSpec(specs[i]);
      if normal.Some? {
        out := out + [Entry(normal.value, parts[1], parts[2])];
      }
    }
    assert specs[..|specs|] == specs;
  }

  // ------------------------------------------------------- what a line can name

  /** A row that a line could have put into the table. */
  predicate WellFormed(valid: string -> bool, hp: HostPort, keyType: string, key: string) {
    && Token(hp.host) && ',' !in hp.host && (hp.host[0] == '[' ==> ']' !in hp.host)
    && ValidPort(hp.port) && Token(keyType) && Token(key) && valid(key)
  }

  lemma {:induction false} WordsAreTokens(s: string)
    ensures forall i :: 0 <= i < |Words(s)| ==> Token(Words(s)[i])
    decreases |s|
  {
    if s == [] {
    } else if IsSpace(s[0]) {
      WordsAreTokens(s[1..]);
    } else {
      WordsAreTokens(s[IndexWhere(s, IsSpace)..]);
    }
  }

  lemma {:induction false} DropMarkersSuffix(parts: seq<string>)
    ensures forall w :: w in DropMarkers(parts) ==> w in parts
  {
    if parts != [] && "@" <= parts[0] {
      DropMarkersSuffix(parts[1..]);
    }
  }

  lemma {:induction false} SplitInside(s: string, sep: char, k: nat)
    requires k < |Split(s, sep)|
    ensures forall c :: c in Split(s, sep)[k] ==> c in s && c != sep
  {
    if s != [] {
      var rest := Split(s[1..], sep);
      var j := if s[0] == sep then k - 1 else k;
      if 0 <= j {
        SplitInside(s[1..], sep, j);
      }
    }
  }

  lemma SpecWellFormed(word: string, k: nat)
    requires Token(word) && k < |Split(word, ',')|
    requires NormaliseHostSpec(Split(word, ',')[k]).Some?
    requires SplitHostPort(NormaliseHostSpec(Split(word, ',')[k]).value).Some?
    ensures
      var hp := SplitHostPort(NormaliseHostSpec(Split(word, ',')[k]).value).value;
      Token(hp.host) && ',' !in hp.host && (hp.host[0] == '[' ==> ']' !in hp.host) && ValidPort(hp.port)
  {
    var spec := Split(word, ',')[k];
    SplitOfNormalised(spec);
    ReadSpecOk(spec);
    HostInside(spec);
    SplitInside(word, ',', k);
    var host := ReadSpec(spec).value.host;
    forall i | 0 <= i < |host| ensures !IsSpace(host[i]) {
      assert host[i] in host;
    }
  }

  /** Every entry of a line that splits is well-formed. */
  lemma LineWellFormed(valid: string -> bool, line: string, e: Entry)
    requires e in LineEntries(valid, line) && SplitHostPort(e.hostPort).Some?
    ensures WellFormed(valid, SplitHostPort(e.hostPort).value, e.keyType, e.key)
  {
    var words := Words(Trim(line));
    var parts := DropMarkers(words);
    WordsAreTokens(Trim(line));
    DropMarkersSuffix(words);
    assert parts[0] in words && parts[1] in words && parts[2] in words;
    var specs := Split(parts[0], ',');
    var f := spec => SpecEntry(spec, parts[1], parts[2]);
    FlatMapHas(f, specs, e);
    var k :| 0 <= k < |specs| && e in f(specs[k]);
    SpecWellFormed(parts[0], k);
  }

  // --------------------------------------------------------- reading an export line

  /** `"{}:{} {} {}"`, the line that export writes for a row. */
  function ExportLine(hp: HostPort, keyType: string, key: string): string {
    HostField(hp) + [' '] + keyType + [' '] + key
  }

  /** A host whose export line is read back. */
  predicate PlainHost(host: string) {
    host != [] && ':' !in host && host[0] !in {'[', '#', '@'} && !("|1|" <= host)
  }

  lemma WordsCons(word: string, rest: string)
    requires Token(word)
    ensures Words(word) == [word]
    ensures Words(word + [' '] + rest) == [word] + Words(rest)
  {
    var s := word + [' '] + rest;
    IndexWhereConcat(word, [' '] + rest, IsSpace);
    assert s == word + ([' '] + rest);
    assert s[|word|..] == [' '] + rest;
    assert ([' '] + rest)[1..] == rest;
    assert s[0] == word[0];
    assert word[..|word|] == word && word[|word|..] == [];
  }

  /** The first word of an export line. */
  function HostField(hp: HostPort): string {
    hp.host + PortSuffix(hp.port)
  }

  lemma HostFieldToken(hp: HostPort)
    requires Token(hp.host)
    ensures Token(HostField(hp)) && HostField(hp)[0] == hp.host[0]
    ensures ',' !in hp.host ==> ',' !in HostField(hp)
  {
    SuffixToken(hp.port);
    TokenConcat(hp.host, PortSuffix(hp.port));
  }

  lemma SuffixToken(port: nat)
    ensures Token(PortSuffix(port)) && ',' !in PortSuffix(port)
  {
    ValueFormat(port);
  }

  lemma TokenConcat(a: string, b: string)
    requires Token(a) && Token(b)
    ensures Token(a + b) && (a + b)[0] == a[0]
    ensures ',' !in a && ',' !in b ==> ',' !in a + b
  {
  }

  lemma ExportWords(hp: HostPort, keyType: string, key: string)
    requires Token(hp.host) && Token(keyType) && Token(key)
    ensures
      var line := ExportLine(hp, keyType, key);
      && Trim(line) == line && line != [] && line[0] == hp.host[0]
      && Words(line) == [HostField(hp), keyType, key]
  {
    HostFieldToken(hp);
    ThreeWords(HostField(hp), keyType, key);
  }

  lemma ThreeWords(a: string, b: string, c: string)
    requires Token(a) && Token(b) && Token(c)
    ensures
      var line := a + [' '] + b + [' '] + c;
      Trim(line) == line && line[0] == a[0] && Words(line) == [a, b, c]
  {
    WordsOfThree(a, b, c);
    Regroup(a, [' '], b, [' '], c);
    Ends(a, [' '] + b + [' '], c);
  }

  lemma WordsOfThree(a: string, b: string, c: string)
    requires Token(a) && Token(b) && Token(c)
    ensures Words(a + [' '] + b + [' '] + c) == [a, b, c]
  {
    Regroup(a, [' '], b, [' '], c);
    WordsCons(a, b + [' '] + c);
    WordsCons(b, c);
    WordsCons(c, []);
    assert [a] + ([b] + [c]) == [a, b, c];
  }

  lemma Regroup<T>(a: seq<T>, b: seq<T>, c: seq<T>, d: seq<T>, e: seq<T>)
    ensures a + b + c + d + e == a + b + (c + d + e)
    ensures a + b + c + d + e == a + (b + c + d) + e
  {
  }

  lemma Ends(a: string, m: string, c: string)
    requires Token(a) && Token(c)
    ensures (a + m + c)[0] == a[0] && Trim(a + m + c) == a + m + c
  {
  }

  /** The line of a well-formed row gives that row back, or, unless the host is plain,
      nothing at all. */
  lemma ExportLineEntries(valid: string -> bool, hp: HostPort, keyType: string, key: string)
    requires WellFormed(valid, hp, keyType, key)
    ensures
      LineEntries(valid, ExportLine(hp, keyType, key)) ==
      if PlainHost(hp.host) then [Entry(HostField(hp), keyType, key)] else []
  {
    ExportWords(hp, keyType, key);
    HostFieldToken(hp);
    var words := [HostField(hp), keyType, key];
    if hp.host[0] == '@' {
      DropMarkersShort(words);
    } else if hp.host[0] != '#' {
      assert DropMarkers(words) == words;
      FieldEntries(valid, hp, keyType, key);
    }
  }

  lemma FieldEntries(valid: string -> bool, hp: HostPort, keyType: string, key: string)
    requires WellFormed(valid, hp, keyType, key) && hp.host[0] !in {'#', '@'}
    ensures
      PartsEntries(valid, [HostField(hp), keyType, key]) ==
      if PlainHost(hp.host) then [Entry(HostField(hp), keyType, key)] else []
  {
    FieldHashed(hp);
    HostFieldToken(hp);
    SplitPrefix(HostField(hp), [], ',');
    FlatMapOne(spec => SpecEntry(spec, keyType, key), HostField(hp));
    FieldEntry(hp, keyType, key);
  }

  lemma DropMarkersShort(words: seq<string>)
    requires |words| == 3 && "@" <= words[0]
    ensures |DropMarkers(words)| < 3
  {
    DropMarkersShrinks(words[1..]);
  }

  lemma {:induction false} DropMarkersShrinks(words: seq<string>)
    ensures |DropMarkers(words)| <= |words|
  {
    if words != [] && "@" <= words[0] {
      DropMarkersShrinks(words[1..]);
    }
  }

  lemma FieldHashed(hp: HostPort)
    ensures "|1|" <= HostField(hp) <==> "|1|" <= hp.host
  {
    ValueFormat(hp.port);
    var field := HostField(hp);
    assert field[|hp.host|] == ':' && field[..|hp.host|] == hp.host;
  }

  lemma FieldEntry(hp: HostPort, keyType: string, key: string)
    requires Token(hp.host) && ValidPort(hp.port) && (hp.host[0] == '[' ==> ']' !in hp.host)
    ensures
      SpecEntry(HostField(hp), keyType, key) ==
      if ':' !in hp.host && hp.host[0] != '[' then [Entry(HostField(hp), keyType, key)] else []
  {
    if hp.host[0] == '[' {
      FieldOpening(hp);
    } else if ':' in hp.host {
      FieldTwoColons(hp);
    } else {
      ReadCanonicalPlain(hp.host, hp.port);
    }
  }

  lemma FieldOpening(hp: HostPort)
    requires Token(hp.host) && hp.host[0] == '[' && ']' !in hp.host
    ensures ReadSpec(HostField(hp)) == None
  {
    var field := HostField(hp);
    HostFieldToken(hp);
    TrimIdentity(field);
    OpeningParts(hp.host, hp.port);
  }

  lemma FieldTwoColons(hp: HostPort)
    requires Token(hp.host) && hp.host[0] != '[' && ':' in hp.host
    ensures ReadSpec(HostField(hp)) == None
  {
    var field := HostField(hp);
    HostFieldToken(hp);
    TrimIdentity(field);
    var k :| 0 <= k < |hp.host| && hp.host[k] == ':';
    assert field[k] == ':' && field[|hp.host|] == ':';
    var colon := IndexOf(field, ':');
    assert colon <= k;
    assert field[colon + 1..][|hp.host| - colon - 1] == ':';
  }

  // ------------------------------------------------------------ what a line says

  predicate Tokens(ws: seq<string>) {
    forall i :: 0 <= i < |ws| ==> Token(ws[i])
  }

  /** A line's words are what stands between its white space. */
  lemma {:induction false} WordsOfJoined(ws: seq<string>)
    requires Tokens(ws)
    ensures Words(Join(ws, ' ')) == ws
  {
    if ws != [] {
      WordsCons(ws[0], Join(ws[1..], ' '));
      if |ws| > 1 {
        WordsOfJoined(ws[1..]);
      }
    }
  }

  lemma {:induction false} JoinedSolid(ws: seq<string>)
    requires Tokens(ws) && ws != []
    ensures Solid(Join(ws, ' ')) && Join(ws, ' ')[0] == ws[0][0]
  {
    if |ws| > 1 {
      JoinedSolid(ws[1..]);
    }
  }

  lemma LineOfWords(valid: string -> bool, ws: seq<string>)
    requires Tokens(ws) && ws != []
    ensures LineEntries(valid, Join(ws, ' ')) == if ws[0][0] == '#' then [] else PartsEntries(valid, DropMarkers(ws))
  {
    JoinedSolid(ws);
    TrimIdentity(Join(ws, ' '));
    WordsOfJoined(ws);
  }

  /** Leading `@` words are dropped, and only those. */
  lemma {:induction false} MarkersDropped(marks: seq<string>, ws: seq<string>)
    requires forall i :: 0 <= i < |marks| ==> marks[i] != [] && marks[i][0] == '@'
    requires ws == [] || ws[0] == [] || ws[0][0] != '@'
    ensures DropMarkers(marks + ws) == ws
  {
    if marks == [] {
      assert marks + ws == ws;
    } else {
      assert (marks + ws)[1..] == marks[1..] + ws;
      assert (marks + ws)[0] == marks[0] && "@" <= marks[0];
      MarkersDropped(marks[1..], ws);
    }
  }

  /** Three words give an entry per acceptable spec of the first, with the second as key
      type and the third as key; a line that is short, hashed or badly keyed gives none. */
  lemma PartsSay(valid: string -> bool, parts: seq<string>, specs: seq<string>)
    requires |parts| >= 3 && parts[2] != [] && parts[0] == Join(specs, ',')
    requires specs != [] && forall i :: 0 <= i < |specs| ==> ',' !in specs[i]
    ensures
      PartsEntries(valid, parts) ==
      if "|1|" <= parts[0] || !valid(parts[2]) then [] else SpecEntries(specs, parts[1], parts[2])
  {
    SplitJoin(specs, ',');
  }

  lemma ShortLine(valid: string -> bool, parts: seq<string>)
    requires |parts| < 3
    ensures PartsEntries(valid, parts) == []
  {
  }

  /** A bare host: its key is for port 22. */
  lemma BareHostLine(valid: string -> bool, host: string, keyType: string, key: string)
    requires Token(host) && PlainHost(host) && ',' !in host && Token(keyType) && Token(key) && valid(key)
    ensures LineEntries(valid, Join([host, keyType, key], ' ')) == [Entry(HostField(HostPort(host, 22)), keyType, key)]
    ensures SplitHostPort(HostField(HostPort(host, 22))) == Some(HostPort(host, 22))
  {
    var parts := [host, keyType, key];
    LineOfWords(valid, parts);
    assert DropMarkers(parts) == parts && Join([host], ',') == host;
    PartsSay(valid, parts, [host]);
    FlatMapOne(spec => SpecEntry(spec, keyType, key), host);
    BareHost(host);
    SplitPlain(host, 22);
  }

  /** A comment line has no entry, wherever it starts. */
  lemma CommentLine(valid: string -> bool, pre: string, rest: string)
    requires Blank(pre)
    ensures LineEntries(valid, pre + (['#'] + rest)) == [] && !IsHashedHostsLine(pre + (['#'] + rest))
  {
    TrimStartBlank(pre, ['#'] + rest);
    TrimEndKeepsFirst(['#'] + rest);
  }

  lemma {:induction false} TrimEndKeepsFirst(s: string)
    requires s != [] && !IsSpace(s[0])
    ensures TrimEnd(s) != [] && TrimEnd(s)[0] == s[0]
  {
    if IsSpace(s[|s| - 1]) {
      TrimEndKeepsFirst(s[..|s| - 1]);
    }
  }

  /** A line is a hashed one exactly when its first word, of at least two, starts with
      `|1|`; it then has no entry. */
  lemma HashedLineIff(valid: string -> bool, ws: seq<string>)
    requires Tokens(ws) && ws != []
    ensures IsHashedHostsLine(Join(ws, ' ')) <==> |ws| > 1 && "|1|" <= ws[0]
    ensures "|1|" <= ws[0] ==> LineEntries(valid, Join(ws, ' ')) == []
  {
    LineOfWords(valid, ws);
    JoinedSolid(ws);
    TrimIdentity(Join(ws, ' '));
    if |ws| > 1 {
      FirstWordEnds(ws[0], Join(ws[1..], ' '));
    } else {
      IndexWhereConcat(ws[0], [], IsSpace);
    }
    if "|1|" <= ws[0] {
      assert ws[0][0] == '|' && DropMarkers(ws) == ws;
    }
  }

  lemma FirstWordEnds(word: string, rest: string)
    requires Token(word)
    ensures
      var s := word + [' '] + rest;
      IndexWhere(s, IsSpace) == |word| && s[..|word|] == word && s[0] == word[0]
  {
    var s := word + [' '] + rest;
    IndexWhereConcat(word, [' '] + rest, IsSpace);
    assert s == word + ([' '] + rest);
  }
}
