/**
 Host specs of known_hosts files: `normalise_host_spec` and `format_canonical` of
 known_hosts_parser.rs, read back by `split_host_port` of known_hosts.rs.
*/
module HostSpec {
  import opened Wrappers
  import opened Text
  import opened Decimal

  datatype HostPort = HostPort(host: string, port: nat)

  const U32_MAX := 0xFFFF_FFFF

  function Checked(host: string, port: Option<nat>): Option<HostPort> {
    if port.Some? && 1 <= port.value <= PORT_MAX then Some(HostPort(host, port.value)) else None
  }

  /** What a spec says: `[host]`, `[host]:port`, `host:port` or `host`, port 22 by default. */
  function ReadSpec(spec: string): Option<HostPort> {
    var s := Trim(spec);
    if s == [] then None
    else if s[0] == '[' then ReadBracketed(s[1..])
    else ReadPlain(s)
  }

  function ReadPlain(s: string): Option<HostPort> {
    var colon := IndexOf(s, ':');
    if colon == |s| then Some(HostPort(s, 22))
    else if ':' in s[colon + 1..] || colon == 0 then None
    else Checked(s[..colon], ParseUnsigned(s[colon + 1..], U32_MAX))
  }

  function ReadBracketed(rest: string): Option<HostPort> {
    var close := IndexOf(rest, ']');
    if close == |rest| || close == 0 then None else ReadTail(rest[..close], rest[close + 1..])
  }

  function ReadTail(host: string, tail: string): Option<HostPort> {
    if tail == [] then Some(HostPort(host, 22))
    else if tail[0] != ':' then None
    else Checked(host, ParseUnsigned(tail[1..], U32_MAX))
  }

  function PortSuffix(port: nat): string {
    [':'] + Format(port)
  }

  /** `format_canonical`. */
  function FormatCanonical(hp: HostPort): string {
    if ':' in hp.host then ['['] + hp.host + [']'] + PortSuffix(hp.port) else hp.host + PortSuffix(hp.port)
  }

  /** `normalise_host_spec`. */
  function NormaliseHostSpec(spec: string): Option<string> {
    match ReadSpec(spec)
    case None => None
    case Some(hp) => Some(FormatCanonical(hp))
  }

  function LastIndexOf(s: string, c: char): (i: nat)
    ensures i <= |s|
    ensures i < |s| ==> s[i] == c && forall j :: i < j < |s| ==> s[j] != c
    ensures i == |s| ==> c !in s
  {
    if s == [] then 0
    else if s[|s| - 1] == c then |s| - 1
    else
      var i := LastIndexOf(s[..|s| - 1], c);
      if i == |s| - 1 then |s| else i
  }

  function CheckedI64(host: string, port: Option<int>): Option<HostPort> {
    if host != [] && port.Some? && 1 <= port.value <= PORT_MAX then Some(HostPort(host, port.value)) else None
  }

  /** `split_host_port`. */
  function SplitHostPort(spec: string): Option<HostPort> {
    if spec != [] && spec[0] == '[' then SplitAfterBracket(spec[1..])
    else
      var colon := LastIndexOf(spec, ':');
      if colon == |spec| then None else SplitTail(spec[..colon], spec[colon..])
  }

  function SplitAfterBracket(rest: string): Option<HostPort> {
    var close := IndexOf(rest, ']');
    if close == |rest| then None else SplitTail(rest[..close], rest[close + 1..])
  }

  function SplitTail(host: string, tail: string): Option<HostPort> {
    if tail == [] || tail[0] != ':' then None else CheckedI64(host, ParseI64(tail[1..]))
  }

  // --------------------------------------------------------------------- reading

  /** A spec's host is non-empty; an opening bracket or a colon in it means that it was
      bracketed, and then no closing bracket is in it. */
  lemma ReadSpecOk(spec: string)
    requires ReadSpec(spec).Some?
    ensures
      var HostPort(host, port) := ReadSpec(spec).value;
      && host != [] && 1 <= port <= PORT_MAX
      && (host[0] == '[' || ':' in host || IsSpace(host[0]) ==> ']' !in host)
  {
    var s := Trim(spec);
    TrimClean(spec);
    if s[0] != '[' {
      var colon := IndexOf(s, ':');
      assert ':' !in s[..colon];
    }
  }

  lemma TrimClean(s: string)
    ensures Trim(s) != [] ==> !IsSpace(Trim(s)[0]) && !IsSpace(Trim(s)[|Trim(s)| - 1])
  {
    TrimStartClean(s);
    TrimEndClean(TrimStart(s));
  }

  lemma {:induction false} TrimStartClean(s: string)
    ensures TrimStart(s) != [] ==> !IsSpace(TrimStart(s)[0])
  {
    if s != [] && IsSpace(s[0]) {
      TrimStartClean(s[1..]);
    }
  }

  lemma {:induction false} TrimEndClean(s: string)
    ensures TrimEnd(s) <= s
    ensures TrimEnd(s) != [] ==> !IsSpace(TrimEnd(s)[|TrimEnd(s)| - 1])
  {
    if s != [] && IsSpace(s[|s| - 1]) {
      TrimEndClean(s[..|s| - 1]);
    }
  }

  lemma TrimIdentity(s: string)
    requires s != [] && !IsSpace(s[0]) && !IsSpace(s[|s| - 1])
    ensures Trim(s) == s
  {
  }

  lemma SuffixShape(port: nat)
    ensures
      var p := PortSuffix(port);
      && |p| >= 2 && p[0] == ':' && p[1..] == Format(port) && !IsSpace(p[|p| - 1])
      && forall i :: 1 <= i < |p| ==> p[i] != ':' && p[i] != ']'
  {
    ValueFormat(port);
  }

  /** A canonical spec with brackets around the host, past the opening one. */
  lemma BracketedParts(host: string, tail: string)
    requires ']' !in host
    ensures
      var rest := host + [']'] + tail;
      IndexOf(rest, ']') == |host| && rest[..|host|] == host && rest[|host| + 1..] == tail
  {
    var rest := host + [']'] + tail;
    assert rest[|host|] == ']';
    assert forall j :: 0 <= j < |host| ==> rest[j] == host[j];
  }

  /** A canonical spec without. */
  lemma PlainParts(host: string, tail: string)
    requires ':' !in host && tail != [] && tail[0] == ':' && forall i :: 1 <= i < |tail| ==> tail[i] != ':'
    ensures
      var s := host + tail;
      && IndexOf(s, ':') == |host| && LastIndexOf(s, ':') == |host|
      && s[..|host|] == host && s[|host|..] == tail && s[|host| + 1..] == tail[1..]
  {
    var s := host + tail;
    assert s[|host|] == ':';
    assert forall j :: 0 <= j < |host| ==> s[j] == host[j];
    assert forall j :: |host| < j < |s| ==> s[j] == tail[j - |host|];
  }

  lemma OpeningParts(host: string, port: nat)
    requires host != [] && ']' !in host
    ensures
      var rest := (host + PortSuffix(port))[1..];
      ']' !in rest && IndexOf(rest, ']') == |rest|
  {
    SuffixShape(port);
    var rest := (host + PortSuffix(port))[1..];
    assert rest == host[1..] + PortSuffix(port);
  }

  predicate ValidPort(port: nat) {
    1 <= port <= PORT_MAX
  }

  // `split_host_port` on the three kinds of canonical spec.

  /** Both readers, past the host. */
  lemma TailParts(host: string, port: nat)
    requires host != [] && ValidPort(port)
    ensures SplitTail(host, PortSuffix(port)) == ReadTail(host, PortSuffix(port)) == Some(HostPort(host, port))
  {
    SuffixShape(port);
    ParseFormat(port, U32_MAX);
  }

  lemma PastBracket(host: string, tail: string)
    requires tail != []
    ensures
      var canonical := ['['] + host + [']'] + tail;
      && canonical[0] == '[' && canonical[|canonical| - 1] == tail[|tail| - 1]
      && canonical[1..] == host + [']'] + tail
  {
  }

  lemma CanonicalBracketed(host: string, port: nat)
    requires ':' in host && ']' !in host && ValidPort(port)
    ensures
      var canonical := FormatCanonical(HostPort(host, port));
      && canonical[0] == '[' && !IsSpace(canonical[|canonical| - 1])
      && SplitAfterBracket(canonical[1..]) == ReadBracketed(canonical[1..]) == Some(HostPort(host, port))
  {
    SuffixShape(port);
    PastBracket(host, PortSuffix(port));
    BracketedParts(host, PortSuffix(port));
    TailParts(host, port);
  }

  lemma SplitBracketed(host: string, port: nat)
    requires ':' in host && ']' !in host && ValidPort(port)
    ensures SplitHostPort(FormatCanonical(HostPort(host, port))) == Some(HostPort(host, port))
  {
    CanonicalBracketed(host, port);
  }

  lemma SplitByTail(host: string, tail: string)
    requires host != [] && host[0] != '[' && tail != [] && LastIndexOf(host + tail, ':') == |host|
    ensures SplitHostPort(host + tail) == SplitTail(host, tail)
  {
    var spec := host + tail;
    assert spec[..|host|] == host && spec[|host|..] == tail;
  }

  lemma SplitPlain(host: string, port: nat)
    requires host != [] && ':' !in host && host[0] != '[' && ValidPort(port)
    ensures SplitHostPort(FormatCanonical(HostPort(host, port))) == Some(HostPort(host, port))
  {
    SuffixShape(port);
    PlainParts(host, PortSuffix(port));
    SplitByTail(host, PortSuffix(port));
    TailParts(host, port);
  }

  lemma SplitOpening(host: string, port: nat)
    requires host != [] && ':' !in host && host[0] == '[' && ']' !in host
    ensures SplitHostPort(FormatCanonical(HostPort(host, port))) == None
  {
    OpeningParts(host, port);
  }

  // `normalise_host_spec` on them.

  lemma ReadCanonicalBracketed(host: string, port: nat)
    requires ':' in host && ']' !in host && ValidPort(port)
    ensures ReadSpec(FormatCanonical(HostPort(host, port))) == Some(HostPort(host, port))
  {
    CanonicalBracketed(host, port);
    TrimIdentity(FormatCanonical(HostPort(host, port)));
  }

  lemma ReadCanonicalPlain(host: string, port: nat)
    requires host != [] && ':' !in host && host[0] != '[' && !IsSpace(host[0]) && ValidPort(port)
    ensures ReadSpec(FormatCanonical(HostPort(host, port))) == Some(HostPort(host, port))
  {
    var canonical := host + PortSuffix(port);
    SuffixShape(port);
    assert canonical[0] == host[0];
    TrimIdentity(canonical);
    ReadByTail(host, PortSuffix(port));
    TailParts(host, port);
  }

  lemma ReadByTail(host: string, tail: string)
    requires host != [] && ':' !in host && tail != [] && tail[0] == ':'
    requires forall i :: 1 <= i < |tail| ==> tail[i] != ':'
    ensures ReadPlain(host + tail) == ReadTail(host, tail)
  {
    PlainParts(host, tail);
  }

  lemma ReadCanonicalOpening(host: string, port: nat)
    requires host != [] && ':' !in host && host[0] == '[' && ']' !in host
    ensures ReadSpec(FormatCanonical(HostPort(host, port))) == None
  {
    var canonical := FormatCanonical(HostPort(host, port));
    SuffixShape(port);
    assert canonical[0] == host[0];
    TrimIdentity(canonical);
    OpeningParts(host, port);
  }

  lemma ReadLeadingSpace(host: string, port: nat)
    requires host != [] && IsSpace(host[0]) && ']' !in host && ':' !in host
    ensures NormaliseHostSpec(host + PortSuffix(port)) != Some(host + PortSuffix(port))
  {
    var s := host + PortSuffix(port);
    SuffixShape(port);
    TrimClean(s);
    TrimInside(s);
    assert ']' !in s && s[0] == host[0];
    ReadUnclosed(s);
  }

  /** A spec without a closing bracket names a host that starts it, blanks aside. */
  lemma ReadUnclosed(spec: string)
    requires ']' !in Trim(spec)
    ensures ReadSpec(spec).Some? ==>
      (var host := ReadSpec(spec).value.host;
       Trim(spec) != [] && host != [] && host[0] == Trim(spec)[0] && host[0] != '[')
  {
    var t := Trim(spec);
    if t != [] && t[0] == '[' {
      assert IndexOf(t[1..], ']') == |t[1..]|;
    }
  }

  /** The host and port of a normalised spec are recovered by `split_host_port`, IPv6
      included, exactly unless the host is a colon-free one that opens with a bracket. */
  lemma SplitRecoversIff(spec: string)
    requires ReadSpec(spec).Some?
    ensures
      var hp := ReadSpec(spec).value;
      SplitHostPort(FormatCanonical(hp)) == Some(hp) <==> ':' in hp.host || hp.host[0] != '['
  {
    ReadSpecOk(spec);
    var HostPort(host, port) := ReadSpec(spec).value;
    if ':' in host {
      SplitBracketed(host, port);
    } else if host[0] != '[' {
      SplitPlain(host, port);
    } else {
      SplitOpening(host, port);
    }
  }

  /** Normalising again changes nothing, exactly unless the host is a colon-free one that
      opens with a bracket or white space. */
  lemma NormaliseIdempotentIff(spec: string)
    requires ReadSpec(spec).Some?
    ensures
      var host, canonical := ReadSpec(spec).value.host, NormaliseHostSpec(spec).value;
      NormaliseHostSpec(canonical) == Some(canonical) <==> ':' in host || !(host[0] == '[' || IsSpace(host[0]))
  {
    ReadSpecOk(spec);
    var HostPort(host, port) := ReadSpec(spec).value;
    if ':' in host {
      ReadCanonicalBracketed(host, port);
    } else if host[0] == '[' {
      ReadCanonicalOpening(host, port);
    } else if IsSpace(host[0]) {
      ReadLeadingSpace(host, port);
    } else {
      ReadCanonicalPlain(host, port);
    }
  }

  lemma {:induction false} TrimStartInside(s: string)
    ensures forall c :: c in TrimStart(s) ==> c in s
  {
    if s != [] && IsSpace(s[0]) {
      TrimStartInside(s[1..]);
    }
  }

  lemma TrimInside(s: string)
    ensures forall c :: c in Trim(s) ==> c in s
  {
    TrimStartInside(s);
    TrimEndClean(TrimStart(s));
  }

  /** A host read from a spec is made of the spec's characters. */
  lemma HostInside(spec: string)
    requires ReadSpec(spec).Some?
    ensures forall c :: c in ReadSpec(spec).value.host ==> c in spec
  {
    TrimInside(spec);
  }

  /** What the table gets from a spec that normalises and splits. */
  lemma SplitOfNormalised(spec: string)
    requires NormaliseHostSpec(spec).Some? && SplitHostPort(NormaliseHostSpec(spec).value).Some?
    ensures SplitHostPort(NormaliseHostSpec(spec).value) == ReadSpec(spec)
  {
    ReadSpecOk(spec);
    var HostPort(host, port) := ReadSpec(spec).value;
    SplitRecoversIff(spec);
    if ':' !in host && host[0] == '[' {
      SplitOpening(host, port);
      assert false;
    }
  }

  /** A bracketed host that opens with a bracket and has no colon is not recovered. */
  lemma BracketHostIsLost()
    ensures
      var spec := "[[a]";
      && ReadSpec(spec) == Some(HostPort("[a", 22))
      && SplitHostPort(FormatCanonical(HostPort("[a", 22))) == None
  {
    var spec := "[[a]";
    TrimIdentity(spec);
    var rest := spec[1..];
    assert rest == "[a]";
    assert rest[2] == ']' && rest[0] != ']' && rest[1] != ']';
    assert IndexOf(rest, ']') == 2;
    assert rest[..2] == "[a" && rest[3..] == [];
    var host := "[a";
    assert host[0] == '[' && host[1] == 'a';
    SplitOpening(host, 22);
  }

  /** A bracketed host that opens with a blank loses it when it is normalised again. */
  lemma BlankHostIsTrimmed()
    ensures
      && ReadSpec("[ a]") == Some(HostPort(" a", 22))
      && NormaliseHostSpec(FormatCanonical(HostPort(" a", 22))) != Some(FormatCanonical(HostPort(" a", 22)))
  {
    var spec := "[ a]";
    TrimIdentity(spec);
    var rest := spec[1..];
    assert rest == " a]";
    assert rest[2] == ']' && rest[0] != ']' && rest[1] != ']';
    assert IndexOf(rest, ']') == 2;
    assert rest[..2] == " a" && rest[3..] == [];
    var host := " a";
    assert host[0] == ' ' && host[1] == 'a';
    ReadLeadingSpace(host, 22);
  }

  // --------------------------------------------------- what each shape of spec says

  /** Blanks around a spec do not matter. */
  lemma SpecTrimmed(pre: string, core: string, post: string)
    requires Blank(pre) && Blank(post) && Solid(core)
    ensures ReadSpec(pre + core + post) == ReadSpec(core)
  {
    TrimAround(pre, core, post);
    TrimIdentity(core);
  }

  /** `host`: port 22. */
  lemma BareHost(host: string)
    requires Solid(host) && host[0] != '[' && ':' !in host
    ensures ReadSpec(host) == Some(HostPort(host, 22))
  {
    TrimIdentity(host);
  }

  /** `host:port`: the port in decimal, from 1 to 65535. */
  lemma HostAndPort(host: string, port: nat)
    requires host != [] && !IsSpace(host[0]) && host[0] != '[' && ':' !in host
    ensures ReadSpec(host + PortSuffix(port)) == if 1 <= port <= 65535 then Some(HostPort(host, port)) else None
  {
    var spec := host + PortSuffix(port);
    SuffixShape(port);
    assert spec[0] == host[0];
    TrimIdentity(spec);
    ReadByTail(host, PortSuffix(port));
    TailPort(host, port);
  }

  lemma TailPort(host: string, port: nat)
    ensures ReadTail(host, PortSuffix(port)) == if 1 <= port <= 65535 then Some(HostPort(host, port)) else None
  {
    SuffixShape(port);
    ParseFormat(port, port);
    ValueFormat(port);
  }

  /** `[host]`, with nothing or a port after it. */
  lemma BracketedHost(host: string, tail: string)
    requires ']' !in host && (tail == [] || !IsSpace(tail[|tail| - 1]))
    ensures ReadSpec(['['] + host + [']'] + tail) == if host == [] then None else ReadTail(host, tail)
  {
    var spec := ['['] + host + [']'] + tail;
    assert spec[0] == '[' && spec[|spec| - 1] == (['[', ']'] + tail)[|tail| + 1];
    TrimIdentity(spec);
    BracketedParts(host, tail);
    assert spec[1..] == host + [']'] + tail;
  }

  /** What the tail after a bracketed host says. */
  lemma BracketedTails(host: string, port: nat, tail: string)
    ensures ReadTail(host, []) == Some(HostPort(host, 22))
    ensures ReadTail(host, PortSuffix(port)) == if 1 <= port <= 65535 then Some(HostPort(host, port)) else None
    ensures tail != [] && tail[0] != ':' ==> ReadTail(host, tail) == None
  {
    TailPort(host, port);
  }

  /** Specs that are refused: blank, two colons without brackets, no host before the colon,
      a bracket that does not close. */
  lemma RefusedSpecs(spec: string, i: nat, j: nat)
    ensures Blank(spec) ==> ReadSpec(spec) == None
    ensures Solid(spec) && spec[0] != '[' && i < j < |spec| && spec[i] == spec[j] == ':' ==> ReadSpec(spec) == None
    ensures Solid(spec) && spec[0] == ':' ==> ReadSpec(spec) == None
    ensures Solid(spec) && spec[0] == '[' && ']' !in spec ==> ReadSpec(spec) == None
  {
    if Blank(spec) {
      TrimAround(spec, [], []);
      assert spec + [] + [] == spec;
    } else if Solid(spec) {
      TrimIdentity(spec);
      RefusedSolid(spec, i, j);
    }
  }

  lemma RefusedSolid(spec: string, i: nat, j: nat)
    requires Solid(spec) && Trim(spec) == spec
    ensures spec[0] != '[' && i < j < |spec| && spec[i] == spec[j] == ':' ==> ReadSpec(spec) == None
    ensures spec[0] == ':' ==> ReadSpec(spec) == None
    ensures spec[0] == '[' && ']' !in spec ==> ReadSpec(spec) == None
  {
    if spec[0] == '[' {
      var rest := spec[1..];
      assert ']' !in spec ==> IndexOf(rest, ']') == |rest|;
    } else if i < j < |spec| && spec[i] == spec[j] == ':' {
      var colon := IndexOf(spec, ':');
      assert colon <= i;
      assert spec[colon + 1..][j - colon - 1] == ':';
    }
  }

  /** The canonical text: brackets for a host with a colon, none for another. */
  lemma FormatSays(host: string, port: nat)
    ensures ':' in host ==> FormatCanonical(HostPort(host, port)) == "[" + host + "]" + (":" + Format(port))
    ensures ':' !in host ==> FormatCanonical(HostPort(host, port)) == host + (":" + Format(port))
  {
  }
}
