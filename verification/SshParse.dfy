/** `parse_openssh_config`: normalise, expand includes, resolve every concrete host. */
module SshParse {
  import opened Wrappers
  import opened SshConfig
  import opened SshInclude
  import opened SshResolve

  /** `normalise_line_endings`: CRLF and bare CR become LF. */
  function NormaliseLineEndings(s: string): string {
    if s == [] then []
    else if s[0] == '\r' then
      ['\n'] + NormaliseLineEndings(if |s| > 1 && s[1] == '\n' then s[2..] else s[1..])
    else [s[0]] + NormaliseLineEndings(s[1..])
  }

  /** The configuration a run stands for: the file's directives with every include in
      place, for the given reader, token resolution and depth bound. */
  ghost function Expanded(
      content: string, reader: string -> Option<string>, resolve: string -> seq<string>, depth: nat): Walk
  {
    WalkFile(Meaning(TextEnv(reader, resolve, LineDirective)), Directives(NormaliseLineEndings(content)), depth, {})
  }

  /** The entry of every unshadowed host is the reading of the expanded configuration. */
  ghost predicate AsRead(blocks: seq<RawBlock>, entries: seq<HostEntry>) {
    var hosts := ConcreteHosts(blocks, |blocks|);
    && |entries| == |hosts|
    && forall k :: 0 <= k < |entries| ==>
      && entries[k].host == hosts[k].host && hosts[k].block < |blocks|
      && (Unshadowed(blocks, hosts[k].block, hosts[k].host) ==> entries[k].settings == Reading(blocks, hosts[k].host))
  }

  method ParseOpensshConfig(
      content: string, reader: string -> Option<string>, resolve: string -> seq<string>, depth: nat)
    returns (entries: seq<HostEntry>, log: seq<Read>)
    ensures log == Expanded(content, reader, resolve, depth).log
    ensures ReadsOk(Expanded(content, reader, resolve, depth), depth, {})
    ensures EntriesOk(Blocks(Expanded(content, reader, resolve, depth).out), entries)
    ensures AsRead(Blocks(Expanded(content, reader, resolve, depth).out), entries)
  {
    LineDirectiveIsReader();
    var te := TextEnv(reader, resolve, LineDirective);
    var expanded, _, reads' := ExpandIncludes(te, NormaliseLineEndings(content), depth, {});
    log := reads';
    WalkFileReads(Meaning(te), Directives(NormaliseLineEndings(content)), depth, {});
    entries := ParseExpanded(expanded);
    EntriesRead(Blocks(Expanded(content, reader, resolve, depth).out), entries);
  }

  lemma EntriesRead(blocks: seq<RawBlock>, entries: seq<HostEntry>)
    requires EntriesOk(blocks, entries)
    ensures AsRead(blocks, entries)
  {
    var hosts := ConcreteHosts(blocks, |blocks|);
    forall k | 0 <= k < |entries|
      ensures entries[k].host == hosts[k].host && hosts[k].block < |blocks|
      ensures Unshadowed(blocks, hosts[k].block, hosts[k].host) ==>
                entries[k].settings == Reading(blocks, hosts[k].host)
    {
      EntriesAsRead(blocks, entries, k);
    }
  }
}
