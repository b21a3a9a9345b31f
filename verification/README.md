# Verified models of LetsFLUTssh

Dafny models of the logic in `lfs_core`, the frontend-free Rust core of LetsFLUTssh, and of
its Swift security-key broker, with proofs of what that logic promises.

    dafny verify dfyconfig.toml

checks everything. One module models one component:

- `AtomicWrite`, `AtomicTheorems`, `AtomicRuns`: crash-safe file replacement as a step
  protocol over a filesystem with a volatile and a durable layer, any number of concurrent
  calls and a crash between any two steps.
- `SshPatterns`, `SshConfig`, `SshResolve`, `SshInclude`, `SshParse`, `SshText`: the OpenSSH
  config interpreter, from glob matching to resolution, against the reading of
  ssh_config(5), and from characters to entries.
- `FolderPath`, `SessionTree`: folder paths, the cascading rename, and the session tree.
- `SnippetTemplate`: rendering a snippet and filling what it left unresolved.
- `Sessions`: ProxyJump cycle detection and copy labels.
- `AutoLock`, `Broker`, `ConfigStore`, `Secrets`, `History`: stateful machines, each a class
  whose methods are tied to the steps of a run model, with theorems over all runs.
- `HostSpec`, `KnownHostsLines`, `KnownHosts`: known_hosts import and export.
- `JsonTree`, `JsonObjects`, `SessionCodec`, `QrCodec`: the session codec, the undo envelope
  and the QR payload.
- `Wrappers`, `Collections`, `Text`, `Decimal`, `Sorting`, `Lex`: shared helpers.

Several promises do not hold unconditionally. There the model keeps what the code does, an
if-and-only-if says when the promise holds, and a lemma beside it gives a run or an input on
which it fails. For the run models the condition is on the run's own steps:

| promise | holds exactly when | proved by |
|---|---|---|
| the destination is never torn, in all runs of a platform | it creates the temp file exclusively | `AtomicRuns.ExclusiveCreateDecides` |
| resolution is the ssh_config(5) reading | no other literal block names the host and its own does not negate it | `SshResolve.ResolvesAsReadIff` |
| rename and list commute | no folder outside the subtree shares the old path | `FolderPath.RenameCommutesIff` |
| full paths are joined names | no path starts with a slash | `SessionTree.FullPathsJoinedIff` |
| two render passes are one | the first output scans into the holes left | `SnippetTemplate.TwoPassesIff` |
| the lock action finds its own locked period | no unlock comes between flip and action | `AutoLock.ActionInItsPeriodIff` |
| the ticker locks an idle user only | nothing restarts the idle window between check and act | `AutoLock.TickerTakesActiveUserIff` |
| splitting recovers a normalised host | it has a colon or no leading bracket | `HostSpec.SplitRecoversIff` |
| normalising a host spec is idempotent | it has a colon, or no leading bracket or blank | `HostSpec.NormaliseIdempotentIff` |
| known-hosts export round-trips | every row is well-formed with a plain host | `KnownHosts.RoundTripIff` |
| extras trees are stable | no unsigned number lands on 2^63 | `JsonTree.StableIff` |
| a session payload is lossless | kind, auth type, via id and credentials are given | `SessionCodec.LosslessIff` |
| a kept key id resolves | `mk` describes it by an object | `QrCodec.KeyIdResolvesIff` |
| one signal per request | no step replaces or drops a waiting entry, no timer or drain hits a signalled tag, no callback follows their removal | `Broker.AccountedThroughoutIff` |
| the disk at rest is current, with no `init` while a write is under way | every write that ends with nothing newer under way brings the current config, or fails over a file that has it, and no `init` drops an unwritten config | `ConfigStore.AgreesThroughoutIff` |
| resident secrets stay locked | no dropped or overwritten buffer shares a page with one that stays | `Secrets.GuardedThroughoutIff` |

Where code and documentation disagree, the model follows the code:

- session_json.rs speaks of preserve-order objects, but the crate does not enable that
  feature of `serde_json`; objects iterate in key order.
- The decoder keeps a manager key id when the key map has a PEM for it, and its comment says
  that the key row is then emitted; without an `mk` entry it is not.
- Directives before the first `Host` line are dropped and `Match` is ignored, unlike in
  ssh_config(5).

## Model

| member | source | states |
|---|---|---|
| `AtomicWrite.StepInv` | rust/crates/lfs_core/src/path.rs:462-552 | every step of every call, and a crash, keeps the protocol invariant: private temp files, committed payloads complete and synced, acknowledged renames not undone |
| `AtomicWrite.RunInv` | rust/crates/lfs_core/src/path.rs:462-552 | the invariant holds in every reachable state, for any number of concurrent calls and crashes anywhere |
| `AtomicTheorems.NeverTorn` | rust/crates/lfs_core/src/path.rs:462-552 | at every point of every run the destination reads as its old content or as one call's complete payload |
| `AtomicTheorems.AckedIsDurable` | rust/crates/lfs_core/src/path.rs:531-552 | once a call has returned Ok after a successful directory sync, whatever any later crash leaves is that payload or one renamed later |
| `AtomicTheorems.OwnTempOnly` | rust/crates/lfs_core/src/path.rs:462-552 | no call's step removes, renames or writes another running call's temp file |
| `AtomicRuns.SoloCallCommits` | rust/crates/lfs_core/src/path.rs:462-552 | from any state, a call that finds its suffix free and meets no failure ends acknowledged, the destination durably holding its payload and no temp file left |
| `AtomicRuns.FailureCleansUp` | rust/crates/lfs_core/src/path.rs:514-535 | after a failed write, sync or rename the temp file is removed, the destination as it was, and the call failed |
| `AtomicRuns.SharedTempTears` | rust/crates/lfs_core/src/path.rs:471-513 | without the exclusive create there is a run that leaves a torn destination |
| `AtomicRuns.ExclusiveCreateDecides` | rust/crates/lfs_core/src/path.rs:471-552 | whole destinations in all runs hold if and only if the temp file is created exclusively |
| `AtomicRuns.FreeOpensNeverTear` | rust/crates/lfs_core/src/path.rs:471-552 | run by run, without the exclusive create the destination is still whole in every run in which each open finds its temp name free |
| `SshPatterns.GlobIffSplits` | rust/crates/lfs_core/src/ssh_config.rs:650-680 | the recursive matcher accepts exactly the texts that split into one piece per pattern character |
| `SshPatterns.LiteralGlob` | rust/crates/lfs_core/src/ssh_config.rs:650-680 | a pattern without `*` and `?` matches itself and nothing else |
| `SshPatterns.Matches` | rust/crates/lfs_core/src/ssh_config.rs:169-186 | the loop with its early exit on a negated match decides: some positive pattern matches and no negated one does |
| `SshPatterns.LiteralsSelect` | rust/crates/lfs_core/src/ssh_config.rs:169-186 | a list of literal patterns selects exactly the hosts it names |
| `SshPatterns.GlobSigns` | rust/crates/lfs_core/src/ssh_config.rs:650-680 | a star matches any text, a question mark any single character |
| `SshPatterns.NegationSays` | rust/crates/lfs_core/src/ssh_config.rs:169-186 | a negated literal keeps the block from being selected for its host |
| `SshConfig.SettingsSnoc` | rust/crates/lfs_core/src/ssh_config.rs:232-308 | a later directive never overwrites a set option; identity files accumulate |
| `SshConfig.FirstSettingWins` | rust/crates/lfs_core/src/ssh_config.rs:285-306 | in a block the first value of an option stays, and identity files add up |
| `SshConfig.FoldedIsParsed` | rust/crates/lfs_core/src/ssh_config.rs:232-308 | after any prefix of directives the loop state is the flushed blocks and the open one of the declarative reading |
| `SshConfig.ParseLines` | rust/crates/lfs_core/src/ssh_config.rs:232-308 | the one-pass loop computes the declarative block list, for any reader of single lines |
| `SshConfig.ParseBlocks` | rust/crates/lfs_core/src/ssh_config.rs:232-308 | the blocks are: one per `Host` line, holding the first value of each option up to the next `Host`, in file order |
| `SshResolve.FillUnset` | rust/crates/lfs_core/src/ssh_config.rs:207-219 | filling the unset options and appending the identity files combines two blocks, earlier first |
| `SshResolve.Walk` | rust/crates/lfs_core/src/ssh_config.rs:202-220 | the loop combines the consulted blocks in the order given |
| `SshResolve.SortAscends` | rust/crates/lfs_core/src/ssh_config.rs:196-200 | sorting the references by order index puts them in file order, each once |
| `SshResolve.AlongPrefix` | rust/crates/lfs_core/src/ssh_config.rs:196-220 | walking any ascending list that covers the consulted blocks gives the file-order combination |
| `SshResolve.ResolveEntry` | rust/crates/lfs_core/src/ssh_config.rs:189-230 | an entry is the file-order, first-value-wins combination of the consulted blocks |
| `SshResolve.LiteralsOf` | rust/crates/lfs_core/src/ssh_config.rs:129-139 | which patterns of a block are concrete hosts, and whether it has concrete and wildcard ones |
| `SshResolve.ClassifyBlock` | rust/crates/lfs_core/src/ssh_config.rs:128-140 | the concrete hosts of one block, and whether it cascades |
| `SshResolve.Classify` | rust/crates/lfs_core/src/ssh_config.rs:126-140 | the first loop lists exactly the cascading blocks, each once, and the concrete hosts in file order |
| `SshResolve.ConcreteHostsOk` | rust/crates/lfs_core/src/ssh_config.rs:128-136 | a host is listed for a block exactly when it is one of its literal patterns |
| `SshResolve.ResolveAll` | rust/crates/lfs_core/src/ssh_config.rs:123-156 | one entry per concrete host, each resolved against its own block |
| `SshResolve.ParseExpanded` | rust/crates/lfs_core/src/ssh_config.rs:123-156 | the same from the text |
| `SshResolve.UnshadowedIff` | rust/crates/lfs_core/src/ssh_config.rs:189-230 | the consulted blocks are the blocks that select the host if and only if the own block does not negate it and no other purely literal block names it |
| `SshResolve.ResolvesAsReadIff` | rust/crates/lfs_core/src/ssh_config.rs:123-230 | whatever the blocks set, resolution equals the ssh_config(5) reading (scan in file order, first value wins) if and only if the host is unshadowed |
| `SshResolve.EarlierWins` | rust/crates/lfs_core/src/ssh_config.rs:202-220 | of two blocks the earlier one's options count |
| `SshResolve.ReadingIsFirst` | rust/crates/lfs_core/src/ssh_config.rs:202-220 | the reading takes each option from the first selecting block that sets it |
| `SshResolve.SecondBlockIsLost` | rust/crates/lfs_core/src/ssh_config.rs:123-230 | a concrete config on which the code and ssh_config(5) differ |
| `SshInclude.DirectivesAppend` | rust/crates/lfs_core/src/ssh_config.rs:349-418 | appending text and a newline to a closed buffer appends the text's directives |
| `SshInclude.ExpandIncludes` | rust/crates/lfs_core/src/ssh_config.rs:349-379 | the expanded text means the walk over the include tree: same directives, visited set and reads, for every reader, cyclic ones included |
| `SshInclude.ExpandLines` | rust/crates/lfs_core/src/ssh_config.rs:349-379 | its loop over the lines |
| `SshInclude.ExpandIncludeLine` | rust/crates/lfs_core/src/ssh_config.rs:381-418 | a line is consumed exactly when it is an Include, and then its files are walked in order |
| `SshInclude.ReadOne` | rust/crates/lfs_core/src/ssh_config.rs:398-416 | one resolved path: skipped, unreadable, or read and expanded with one less level |
| `SshInclude.WalkFileReads` | rust/crates/lfs_core/src/ssh_config.rs:349-418 | no resolved path is read twice in one run, every read is at a level within the depth bound, and the visited set is what was read |
| `SshInclude.WalkFileConserves` | rust/crates/lfs_core/src/ssh_config.rs:349-418 | each directive other than Include occurs in the expansion as often as in the start text and the files read together |
| `SshInclude.IncludeInPlace` | rust/crates/lfs_core/src/ssh_config.rs:349-418 | what an include brings stands in its place |
| `SshInclude.PathBrings` | rust/crates/lfs_core/src/ssh_config.rs:401-416 | a new path brings what its file says; an unreadable or known one nothing |
| `SshInclude.LeftoverIncludesAreInert` | rust/crates/lfs_core/src/ssh_config.rs:232-308 | an Include line left at the depth bound never changes the parsed blocks |
| `SshInclude.EnoughBudget` | rust/crates/lfs_core/src/ssh_config.rs:349-418 | when no Include is left over, one more level gives the same expansion |
| `SshInclude.DeeperBudget` | rust/crates/lfs_core/src/ssh_config.rs:349-418 | and so does any deeper bound |
| `SshInclude.FilesBoundDepth` | rust/crates/lfs_core/src/ssh_config.rs:349-418 | with more levels than unread readable files no Include is left over |
| `SshResolve.EntriesAsRead` | rust/crates/lfs_core/src/ssh_config.rs:123-230 | every entry of an unshadowed host holds what the ssh_config(5) reading gives it |
| `SshParse.ParseOpensshConfig` | rust/crates/lfs_core/src/ssh_config.rs:62-85 | expansion, block parsing and resolution composed: the read log within bounds, and every unshadowed entry as the reading of the expanded configuration |
| `SshText.KeywordTable` | rust/crates/lfs_core/src/ssh_config.rs:264-306 | each of the seven words, in any case, is its keyword, and no other word is one |
| `SshText.SettingTable` | rust/crates/lfs_core/src/ssh_config.rs:282-306 | each directive fills its own option and nothing else |
| `SshText.PortDigits` | rust/crates/lfs_core/src/ssh_config.rs:290 | a port is read from its decimal digits up to 65535 |
| `SshText.BareLine` | rust/crates/lfs_core/src/ssh_config.rs:686-740 | a line with a bare value, with any blanks, an equals sign or none, a comment or none, says that word and that value |
| `SshText.QuotedLine` | rust/crates/lfs_core/src/ssh_config.rs:686-740 | a quoted value is whatever is in the quotes, a comment sign included |
| `SshText.SilentLine` | rust/crates/lfs_core/src/ssh_config.rs:261-270 | a blank or comment line and a lone word say nothing |
| `SshText.TokensOfJoined` | rust/crates/lfs_core/src/ssh_config.rs:744-764 | a blank-separated list is its tokens |
| `SshText.TokensOfQuoted` | rust/crates/lfs_core/src/ssh_config.rs:744-764 | quotes make one token, blanks included |
| `SshText.WildcardChars` | rust/crates/lfs_core/src/ssh_config.rs:637-639 | what makes a pattern a wildcard |
| `SshText.AuthTable` | rust/crates/lfs_core/src/ssh_config.rs:318-326 | the three methods that are mapped |
| `SshText.AuthListOk` | rust/crates/lfs_core/src/ssh_config.rs:315-342 | each known method once, and exactly those the list names |
| `SshText.AuthListGrows` | rust/crates/lfs_core/src/ssh_config.rs:315-342 | in the order in which the list first names them |
| `SshText.PreferredSays` | rust/crates/lfs_core/src/ssh_config.rs:315-336 | a list with no known method counts as no value, any other as its methods |
| `SshText.LinesCons` | rust/crates/lfs_core/src/ssh_config.rs:260 | a line feed ends a line and takes one carriage return along |
| `SshText.FileSays` | rust/crates/lfs_core/src/ssh_config.rs:260-306 | a file says what its lines say, in order |
| `SshText.EndingsOf` | rust/crates/lfs_core/src/ssh_config.rs:87-92 | CRLF and bare CR become LF and nothing else changes |
| `SshText.EntryOfText` | rust/crates/lfs_core/src/ssh_config.rs:123-308 | from text to entry: in a file that gives a host a host name and a user, in any spelling of the three words, the entry has each in its place |
| `FolderPath.BuildFolderPath` | rust/crates/lfs_core/src/folder_path.rs:38-70 | the loop yields the path from root to folder, with the cycle and orphan markers |
| `FolderPath.WalkMark` | rust/crates/lfs_core/src/folder_path.rs:38-70 | the orphan mark means that the chain reaches a missing folder, the cycle mark that it returns to one it has met, no mark that it reaches the top |
| `FolderPath.PathSays` | rust/crates/lfs_core/src/folder_path.rs:38-70 | the path by its mark: plain, after `(orphaned)/`, or after `(cycle)/` |
| `FolderPath.MarkedPaths` | rust/crates/lfs_core/src/folder_path.rs:38-70 | the path of a missing folder, of one whose parent is missing, of one that is its own parent, and of a top-level one |
| `FolderPath.NoFolderNoPath` | rust/crates/lfs_core/src/folder_path.rs:38-42 | no folder, no path |
| `FolderPath.AllFolderPaths` | rust/crates/lfs_core/src/folder_path.rs:94-102 | the strictly ascending list of exactly the folders' paths |
| `FolderPath.RenamePathsCascade` | rust/crates/lfs_core/src/folder_path.rs:158-181 | the strictly ascending list of exactly the rewritten paths, with the three no-op cases |
| `FolderPath.FindFolderIdByPath` | rust/crates/lfs_core/src/folder_path.rs:80-91 | the least id with that path if there is one, and none only if there is none |
| `FolderPath.WalkShrinks` | rust/crates/lfs_core/src/folder_path.rs:38-70 | on a rooted chain the visited set does not matter |
| `FolderPath.RenamedNames` | rust/crates/lfs_core/src/folder_path.rs:38-70 | renaming a row changes one name, at its depth, in the paths of its subtree and nothing else |
| `FolderPath.JoinPrefix` | rust/crates/lfs_core/src/folder_path.rs:158-181 | `old/` is a text prefix of a path exactly when the names are a proper prefix |
| `FolderPath.RewriteNames` | rust/crates/lfs_core/src/folder_path.rs:158-181 | the cascade replaces exactly the leading names |
| `FolderPath.NamesInjective` | rust/crates/lfs_core/src/folder_path.rs:38-70 | distinct sibling names make paths distinct |
| `FolderPath.RenameCommutesIff` | rust/crates/lfs_core/src/folder_path.rs:38-181 | renaming a row and listing equals listing and cascading, if and only if the name is unchanged or no folder outside the subtree has a path at or under the old one |
| `FolderPath.DistinctSiblingsUnshadowed` | rust/crates/lfs_core/src/folder_path.rs:38-181 | distinct sibling names give that condition |
| `FolderPath.TwinsDoNotCommute` | rust/crates/lfs_core/src/folder_path.rs:38-181 | two top-level folders of one name, on which the two lists differ |
| `SessionTree.Build` | rust/crates/lfs_core/src/session_tree.rs:49-62 | the two insertion loops and the sort produce the specified tree |
| `SessionTree.PlaceLeaves` | rust/crates/lfs_core/src/session_tree.rs:65-121 | placing adds exactly the given leaf, exactly under its folder path |
| `SessionTree.PlaceFolders` | rust/crates/lfs_core/src/session_tree.rs:65-92 | placing creates the folders along the path and no others |
| `SessionTree.PlaceTidy` | rust/crates/lfs_core/src/session_tree.rs:65-121 | placing keeps sibling folder names distinct and full paths extending each other |
| `SessionTree.LeafSays` | rust/crates/lfs_core/src/session_tree.rs:94-121 | a leaf's name is the label, or the display name when that is empty; its full path is the label, under the folder when there is one |
| `SessionTree.OrderSays` | rust/crates/lfs_core/src/session_tree.rs:124-131 | folders before sessions, and by case-folded name within each |
| `SessionTree.CountSays` | rust/crates/lfs_core/src/session_tree.rs:140-145 | what counts as a session |
| `SessionTree.SessionsConserved` | rust/crates/lfs_core/src/session_tree.rs:49-145 | each session is a leaf exactly as often as it is in the input, under its own folder path; no other leaf exists |
| `SessionTree.SortLevelFirst` | rust/crates/lfs_core/src/session_tree.rs:124-138 | sorting a level before or after its children gives the same tree |
| `SessionTree.SortTreeOk` | rust/crates/lfs_core/src/session_tree.rs:124-145 | every level is folders first and then ordered by case-folded name, and each folder's count is the number of leaves below it |
| `SessionTree.TreeOk` | rust/crates/lfs_core/src/session_tree.rs:49-145 | the tree has exactly the folders its input paths lead through, no level has two of one name, and it is sorted and counted |
| `SessionTree.FullPathsJoinedIff` | rust/crates/lfs_core/src/session_tree.rs:65-92 | every full path is the joined ancestor names if and only if no input path starts with a slash |
| `SessionTree.LeadingSlashNotJoined` | rust/crates/lfs_core/src/session_tree.rs:65-92 | a path on which they are not |
| `SnippetTemplate.FindCloseLoop` | rust/crates/lfs_core/src/snippet_template.rs:138-150 | the index of the first `}}`, if any |
| `SnippetTemplate.ScanToken` | rust/crates/lfs_core/src/snippet_template.rs:87-127 | one token: consumed, or the unterminated tail kept |
| `SnippetTemplate.RenderNext` | rust/crates/lfs_core/src/snippet_template.rs:49-79 | one turn of the loop leaves the rest of the output and of the unresolved names to do |
| `SnippetTemplate.Render` | rust/crates/lfs_core/src/snippet_template.rs:43-85 | the loop renders the parsed pieces and lists the missing names |
| `SnippetTemplate.TokenSays` | rust/crates/lfs_core/src/snippet_template.rs:43-127 | a token, with blanks around its name or not, is replaced by the name's value, or kept as written and reported under the name |
| `SnippetTemplate.BlankTokenSays` | rust/crates/lfs_core/src/snippet_template.rs:109-114 | braces around blanks are kept and no name is missing |
| `SnippetTemplate.EscapeSays` | rust/crates/lfs_core/src/snippet_template.rs:51-57 | four braces stand for two |
| `SnippetTemplate.PlainSays` | rust/crates/lfs_core/src/snippet_template.rs:67-72 | other text is kept |
| `SnippetTemplate.UnclosedSays` | rust/crates/lfs_core/src/snippet_template.rs:100-105 | an unclosed token is kept with all that follows |
| `SnippetTemplate.UnresolvedOk` | rust/crates/lfs_core/src/snippet_template.rs:43-127 | the unresolved names are distinct, exactly the unfilled ones, in first-seen order |
| `SnippetTemplate.FillMerged` | rust/crates/lfs_core/src/snippet_template.rs:43-136 | filling the open holes left by a first context is showing with the merged one |
| `SnippetTemplate.Distinguish` | rust/crates/lfs_core/src/snippet_template.rs:43-136 | two different cell lists are told apart by some context |
| `SnippetTemplate.TwoPassesIff` | rust/crates/lfs_core/src/snippet_template.rs:43-136 | render then fill equals one render with the merged context, for every second context, if and only if the first output scans into the holes the first pass left |
| `SnippetTemplate.InertKeepsHoles` | rust/crates/lfs_core/src/snippet_template.rs:43-136 | that is so when no escape is taken and no value that the template uses holds `{{` or ends in `{` |
| `SnippetTemplate.TwoPassesMerge` | rust/crates/lfs_core/src/snippet_template.rs:134-136 | hence the two passes merge, the first context winning |
| `SnippetTemplate.EscapeDoesNotSurvive` | rust/crates/lfs_core/src/snippet_template.rs:43-136 | a template with the `{{{{` escape on which they do not |
| `Sessions.DetectProxyCycle` | rust/crates/lfs_core/src/sessions.rs:535-555 | true exactly when the seed is reachable from the candidate, on every graph, cyclic ones included |
| `Sessions.LookupLast` | rust/crates/lfs_core/src/sessions.rs:535-545 | each id jumps where its last row says |
| `Sessions.LookupUnknown` | rust/crates/lfs_core/src/sessions.rs:535-545 | and an id without a row nowhere |
| `Sessions.Walk` | rust/crates/lfs_core/src/sessions.rs:545-555 | its loop, which ends because visited grows within the graph |
| `Sessions.JumpRepeats` | rust/crates/lfs_core/src/sessions.rs:535-555 | a walk that repeats a node reaches nothing new |
| `Sessions.EdgeAcyclicIff` | rust/crates/lfs_core/src/sessions.rs:535-555 | adding an edge to an acyclic graph keeps it acyclic if and only if the check says no |
| `Sessions.ApplyAcyclic` | rust/crates/lfs_core/src/sessions.rs:507-555 | an accepted edit, a deletion or a fresh-id addition keeps the graph acyclic |
| `Sessions.RunAcyclic` | rust/crates/lfs_core/src/sessions.rs:507-555 | so does every run of them |
| `Sessions.CopyLabelsDiffer` | rust/crates/lfs_core/src/sessions.rs:585-602 | different counters give different copy labels |
| `Sessions.CopyLabelSays` | rust/crates/lfs_core/src/sessions.rs:585-602 | how copies are labelled |
| `Sessions.UniqueLabel` | rust/crates/lfs_core/src/sessions.rs:585-602 | the base when it is empty or free; otherwise the free copy label with the least counter, found within as many tries as there are taken labels |
| `AutoLock.AutoLockMachine.constructor` | rust/crates/lfs_core/src/autolock.rs:80-94 | the initial state |
| `AutoLock.AutoLockMachine.OnPointerActivity` | rust/crates/lfs_core/src/autolock.rs:105-109 | one step of the run model |
| `AutoLock.AutoLockMachine.OnLifecycleChange` | rust/crates/lfs_core/src/autolock.rs:115-131 | one step; the action fires exactly on a flip to locked |
| `AutoLock.AutoLockMachine.SetTimeoutMinutes` | rust/crates/lfs_core/src/autolock.rs:134-146 | one step, negative minutes clamped and the 64-bit product wrapped, and the event with the clamped minutes |
| `AutoLock.TimeoutKeptIff` | rust/crates/lfs_core/src/autolock.rs:134-136 | the timeout is the one asked for if and only if the product fits |
| `AutoLock.HugeTimeoutSwitchesOff` | rust/crates/lfs_core/src/autolock.rs:134-136 | minutes on which it is not, and the idle lock is off |
| `AutoLock.AutoLockMachine.RequestLockNow` | rust/crates/lfs_core/src/autolock.rs:148-160 | one step; the action fires exactly on a flip to locked |
| `AutoLock.AutoLockMachine.Release` | rust/crates/lfs_core/src/autolock.rs:162-178 | one step, with the unlocked event exactly when it was locked |
| `AutoLock.AutoLockMachine.FireLock` | rust/crates/lfs_core/src/autolock.rs:191-204 | the action of a flip and then its event |
| `AutoLock.AutoLockMachine.CheckIdle` | rust/crates/lfs_core/src/autolock.rs:231-238 | the ticker's first section |
| `AutoLock.AutoLockMachine.LockIdle` | rust/crates/lfs_core/src/autolock.rs:239-246 | the ticker's second section; the action fires exactly on a flip to locked |
| `AutoLock.StepInv` | rust/crates/lfs_core/src/autolock.rs:105-246 | every step keeps the account of flips, actions and events |
| `AutoLock.RunInv` | rust/crates/lfs_core/src/autolock.rs:105-246 | so does every interleaving |
| `AutoLock.LocksIff` | rust/crates/lfs_core/src/autolock.rs:115-246 | what takes an unlocked machine to locked: a request, the ticker's act, or a change to the background while a timeout is set, and nothing else; then, and only then, a flip and its action are added |
| `AutoLock.UnlocksIff` | rust/crates/lfs_core/src/autolock.rs:162-178 | a locked machine leaves that state by an unlock only |
| `AutoLock.ArmsIff` | rust/crates/lfs_core/src/autolock.rs:231-238 | the check is positive exactly when the machine is unlocked, a timeout is set, and it has passed since the last activity |
| `AutoLock.WindowStarts` | rust/crates/lfs_core/src/autolock.rs:105-178 | where the idle window starts after each step |
| `AutoLock.OffStaysUnlocked` | rust/crates/lfs_core/src/autolock.rs:115-246 | with the timeout off and no check outstanding, every run without a request or a new timeout stays unlocked, and no check comes out positive |
| `AutoLock.LocksAccountedFor` | rust/crates/lfs_core/src/autolock.rs:115-246 | over every interleaving: actions run plus actions under way equal the flips to locked, lock flips less unlock flips is 1 exactly while locked, and no flip runs its action or publishes its event twice |
| `AutoLock.ActionInItsPeriodIff` | rust/crates/lfs_core/src/autolock.rs:148-204 | from any locked state on, a run is still in that locked period, so that the flip's action finds it, if and only if no step of the run is an unlock |
| `AutoLock.ActionAfterUnlock` | rust/crates/lfs_core/src/autolock.rs:162-204 | a run in which the action runs after the unlock |
| `AutoLock.StillIdleIff` | rust/crates/lfs_core/src/autolock.rs:105-246 | from a state idle at a moment, with no clock read earlier, a run is still idle at that moment if and only if no step restarted the idle window: activity, a new timeout, an unlock, or a lifecycle change that does not lock |
| `AutoLock.TickerTakesActiveUserIff` | rust/crates/lfs_core/src/autolock.rs:231-246 | the ticker's act locks whatever is unlocked by then, and takes a user who is no longer idle if and only if the machine is unlocked and the window was restarted since its check |
| `AutoLock.TickerLocksActiveUser` | rust/crates/lfs_core/src/autolock.rs:231-246 | a run on which it does |
| `HostSpec.ReadSpecOk` | rust/crates/lfs_core/src/known_hosts_parser.rs:127-165 | an accepted spec has a non-empty host and a port in range; an opening bracket or a colon in the host means that no closing bracket is in it |
| `HostSpec.HostInside` | rust/crates/lfs_core/src/known_hosts_parser.rs:127-165 | the host is made of the spec's characters |
| `HostSpec.BareHost` | rust/crates/lfs_core/src/known_hosts_parser.rs:127-165 | a bare host without a colon is read with port 22 |
| `HostSpec.HostAndPort` | rust/crates/lfs_core/src/known_hosts_parser.rs:127-165 | host and port: read for a decimal port from 1 to 65535, refused for any other |
| `HostSpec.BracketedHost` | rust/crates/lfs_core/src/known_hosts_parser.rs:127-165 | a bracketed host, refused when empty, and then its tail |
| `HostSpec.BracketedTails` | rust/crates/lfs_core/src/known_hosts_parser.rs:127-165 | the tail: nothing for port 22, a port from 1 to 65535, refused otherwise |
| `HostSpec.SpecTrimmed` | rust/crates/lfs_core/src/known_hosts_parser.rs:127-165 | blanks around a spec do not matter |
| `HostSpec.RefusedSpecs` | rust/crates/lfs_core/src/known_hosts_parser.rs:127-165 | blank specs, two colons without brackets, no host before the colon and unclosed brackets are refused |
| `HostSpec.FormatSays` | rust/crates/lfs_core/src/known_hosts_parser.rs:167-173 | the canonical text, with brackets exactly for a host with a colon |
| `HostSpec.SplitRecoversIff` | rust/crates/lfs_core/src/known_hosts.rs:295-319 | splitting a normalised spec recovers host and port, IPv6 included, if and only if the host has a colon or does not open with a bracket |
| `HostSpec.BracketHostIsLost` | rust/crates/lfs_core/src/known_hosts.rs:295-319 | a spec on which it is not |
| `HostSpec.NormaliseIdempotentIff` | rust/crates/lfs_core/src/known_hosts_parser.rs:127-173 | normalising again changes nothing, if and only if the host has a colon or opens neither with a bracket nor with white space |
| `HostSpec.BlankHostIsTrimmed` | rust/crates/lfs_core/src/known_hosts_parser.rs:127-173 | a spec on which it does |
| `HostSpec.SplitOfNormalised` | rust/crates/lfs_core/src/known_hosts.rs:295-319 | what the table gets from a spec that normalises and splits is what the spec says |
| `Decimal.ValueSays` | rust/crates/lfs_core/src/known_hosts_parser.rs:144-158 | the digits of a port are positional, the first the most significant |
| `Decimal.ReadersSay` | rust/crates/lfs_core/src/known_hosts_parser.rs:144-158 | an unsigned port takes digits, a plus in front or not, within its bound |
| `Decimal.SignedSays` | rust/crates/lfs_core/src/known_hosts.rs:316 | a signed one takes the 64-bit range, a minus in front or not |
| `Decimal.PlusSays` | rust/crates/lfs_core/src/known_hosts.rs:316 | or a plus |
| `KnownHostsLines.ParseLine` | rust/crates/lfs_core/src/known_hosts_parser.rs:40-98 | the marker and spec loops yield one entry per acceptable spec of a valid line, in order, and none for blank, comment, short, hashed or badly keyed lines |
| `KnownHostsLines.LineOfWords` | rust/crates/lfs_core/src/known_hosts_parser.rs:40-98 | a line is read by its words |
| `KnownHostsLines.MarkersDropped` | rust/crates/lfs_core/src/known_hosts_parser.rs:40-98 | leading `@` words are dropped, and only those |
| `KnownHostsLines.PartsSay` | rust/crates/lfs_core/src/known_hosts_parser.rs:40-98 | the first word's specs, the second as key type, the third as key; nothing for a hashed host or a bad key |
| `KnownHostsLines.BareHostLine` | rust/crates/lfs_core/src/known_hosts_parser.rs:40-98 | a line for a bare host is an entry for port 22 |
| `KnownHostsLines.CommentLine` | rust/crates/lfs_core/src/known_hosts_parser.rs:40-98 | a comment line has no entry and is not a hashed one |
| `KnownHostsLines.HashedLineIff` | rust/crates/lfs_core/src/known_hosts_parser.rs:179-196 | a line is a hashed one exactly when its first word, of at least two, starts with the hash marker |
| `KnownHostsLines.LineWellFormed` | rust/crates/lfs_core/src/known_hosts_parser.rs:40-98 | an entry that splits names a white-space-free, comma-free host, a port in range and a valid key |
| `KnownHostsLines.ExportLineEntries` | rust/crates/lfs_core/src/known_hosts_parser.rs:40-98 | the export line of a well-formed row reads back as that one entry if the host is plain, and as nothing otherwise |
| `KnownHosts.KnownHostsDb.ImportEntry` | rust/crates/lfs_core/src/known_hosts.rs:99-124 | one entry: rows there stay, a new host and port gets the row; the counters follow |
| `KnownHosts.KnownHostsDb.ImportEntries` | rust/crates/lfs_core/src/known_hosts.rs:90-93 | the loop over a line's entries |
| `KnownHosts.KnownHostsDb.ImportLine` | rust/crates/lfs_core/src/known_hosts.rs:77-95 | one line, hashed lines counted |
| `KnownHosts.KnownHostsDb.ImportLines` | rust/crates/lfs_core/src/known_hosts.rs:61-66 | the loop over the lines |
| `KnownHosts.KnownHostsDb.ImportFromString` | rust/crates/lfs_core/src/known_hosts.rs:54-71 | existing rows stay and each new host and port gets its first entry; added is the growth, added + skipped_existing the splittable entries, skipped_hashed the hashed lines; one event exactly when the table changed |
| `KnownHosts.BareHostImported` | rust/crates/lfs_core/src/known_hosts.rs:54-124 | importing one line for a bare host gives its port 22 that key, unless it has one |
| `KnownHosts.KnownHostsDb.ExportToString` | rust/crates/lfs_core/src/known_hosts.rs:133-150 | one line per row, in host and port order |
| `KnownHosts.ImportedThen` | rust/crates/lfs_core/src/known_hosts.rs:54-124 | importing one text after another is importing their entries in that order |
| `KnownHosts.ImportedUnique` | rust/crates/lfs_core/src/known_hosts.rs:54-124 | the outcome of an import is determined by the table and the entries |
| `KnownHosts.SecondImportIdle` | rust/crates/lfs_core/src/known_hosts.rs:54-124 | importing the same text again changes nothing and adds nothing |
| `KnownHosts.GrownTable` | rust/crates/lfs_core/src/known_hosts.rs:68-70 | added is positive exactly when the table changed |
| `KnownHosts.ExportDeterministic` | rust/crates/lfs_core/src/known_hosts.rs:133-150 | the same table always exports to the same text |
| `KnownHosts.KeyOrderSays` | rust/crates/lfs_core/src/known_hosts.rs:133-150 | the order of the exported rows: by host, and by port under one host |
| `KnownHosts.ImportKeepsWellFormed` | rust/crates/lfs_core/src/known_hosts.rs:54-124 | import keeps a table well-formed |
| `KnownHosts.ExportImport` | rust/crates/lfs_core/src/known_hosts.rs:54-150 | exporting a well-formed table and importing into an empty one restores exactly the rows whose host is plain (no colon, no leading `[`, `#`, `@` or hash marker) |
| `KnownHosts.RoundTripIff` | rust/crates/lfs_core/src/known_hosts.rs:54-150 | for any table at all, the round trip restores it if and only if every row is well-formed with a plain host |
| `KnownHosts.Ipv6RowIsLost` | rust/crates/lfs_core/src/known_hosts.rs:133-150 | an IPv6 row is lost, because export writes no brackets |
| `JsonTree.FindPut` | rust/crates/lfs_core/src/session_json.rs:208-293 | insert and lookup in an object |
| `JsonTree.CollectOrdered` | rust/crates/lfs_core/src/session_json.rs:609-615 | collecting pairs gives an object in key order made of those pairs |
| `JsonTree.ToValueOk` | rust/crates/lfs_core/src/session_json.rs:597-616 | the converted value is well-formed and has no number that lands on 2^63 |
| `JsonTree.SettledFromIff` | rust/crates/lfs_core/src/session_json.rs:131-170 | the typed tree of a value is settled if and only if no unsigned number lands on 2^63 |
| `JsonTree.TypedRoundTripIff` | rust/crates/lfs_core/src/session_json.rs:131-170 | to a value and back is the identity if and only if the tree is settled: no whole double in the i64 range, no NaN or infinity, objects in key order |
| `JsonTree.DoublesThatChange` | rust/crates/lfs_core/src/session_json.rs:131-170 | two trees on which it is not |
| `JsonTree.StableIff` | rust/crates/lfs_core/src/session_json.rs:131-170 | converting again changes nothing if and only if no unsigned number lands on 2^63 |
| `JsonTree.UnsignedLimitIsUnstable` | rust/crates/lfs_core/src/session_json.rs:137-150 | a number on which it does |
| `JsonTree.OneConversionSettles` | rust/crates/lfs_core/src/session_json.rs:597-616 | any typed tree is stable after one conversion |
| `JsonTree.ScalarsKept` | rust/crates/lfs_core/src/session_json.rs:131-170 | null, booleans, texts, items and members are what they were, both ways |
| `JsonTree.IntegersKept` | rust/crates/lfs_core/src/session_json.rs:136-158 | whole numbers of the i64 range become integers of that value and are written as integers |
| `JsonTree.RoundingSays` | rust/crates/lfs_core/src/session_json.rs:142-149 | large unsigned numbers go to the nearest double, ties to even |
| `JsonTree.NumberKeptIff` | rust/crates/lfs_core/src/session_json.rs:136-158 | a number keeps its value if and only if it is not the double 2^63 nor a large unsigned number that is no double |
| `JsonTree.NumbersThatChange` | rust/crates/lfs_core/src/session_json.rs:136-158 | two numbers that change |
| `JsonObjects.JsonMap.Insert` | rust/crates/lfs_core/src/session_json.rs:208-293 | an insert keeps exactly the intended keys and no other |
| `SessionCodec.InsertExtras` | rust/crates/lfs_core/src/session_json.rs:240-252 | extras written when they parse to a non-empty object; an error exactly when they do not parse |
| `SessionCodec.InsertVia` | rust/crates/lfs_core/src/session_json.rs:256-268 | the two ProxyJump keys, an empty id omitted |
| `SessionCodec.InsertOptionalScalars` | rust/crates/lfs_core/src/session_json.rs:273-283 | the three scalars, defaults omitted |
| `SessionCodec.InsertCredentials` | rust/crates/lfs_core/src/session_json.rs:287-293 | the credential keys exactly when opted in |
| `SessionCodec.EncodeCanonicalJson` | rust/crates/lfs_core/src/session_json.rs:208-235 | the payload has exactly the stated keys and values, in key order; an error exactly for malformed extras |
| `SessionCodec.NameTable` | rust/crates/lfs_core/src/session_json.rs:208-293 | the keys of a payload |
| `SessionCodec.PayloadNames` | rust/crates/lfs_core/src/session_json.rs:208-235 | identity, host, port and user under their keys |
| `SessionCodec.PayloadLogin` | rust/crates/lfs_core/src/session_json.rs:208-235 | authentication and key under their keys, an empty key id omitted |
| `SessionCodec.PayloadStamps` | rust/crates/lfs_core/src/session_json.rs:208-235 | the time stamps and the kind under their keys, the default kind omitted |
| `SessionCodec.PayloadNotes` | rust/crates/lfs_core/src/session_json.rs:273-283 | notes and sort order under their keys, defaults omitted |
| `SessionCodec.PayloadOptions` | rust/crates/lfs_core/src/session_json.rs:256-283 | last connection and via id under their keys |
| `SessionCodec.PayloadSecrets` | rust/crates/lfs_core/src/session_json.rs:287-293 | the credentials under their keys exactly when opted in |
| `SessionCodec.PayloadParts` | rust/crates/lfs_core/src/session_json.rs:240-268 | extras and override under their keys |
| `SessionCodec.ExtrasSay` | rust/crates/lfs_core/src/session_json.rs:240-252 | extras are written exactly when the text is an object with something in it, and as that object |
| `SessionCodec.OverrideKeys` | rust/crates/lfs_core/src/session_json.rs:256-268 | the override's host, port and user under their keys |
| `SessionCodec.DecodedTexts` | rust/crates/lfs_core/src/session_json.rs:304-412 | each text field is decoded from its own key |
| `SessionCodec.DecodedDefaults` | rust/crates/lfs_core/src/session_json.rs:304-412 | each other field from its own, the folder also from the older group key |
| `SessionCodec.DecoderOverride` | rust/crates/lfs_core/src/session_json.rs:352-384 | the override from its keys |
| `SessionCodec.DefaultsSay` | rust/crates/lfs_core/src/session_json.rs:304-412 | what a missing value is decoded to, and that a present one is kept |
| `SessionCodec.OddPortsSay` | rust/crates/lfs_core/src/session_json.rs:317-325 | ports out of range |
| `SessionCodec.DoublePortSays` | rust/crates/lfs_core/src/session_json.rs:317-325 | a port given as a double |
| `SessionCodec.WrapSays` | rust/crates/lfs_core/src/session_json.rs:387-391 | a sort order is cut to 32 bits |
| `SessionCodec.EnvelopeSays` | rust/crates/lfs_core/src/session_json.rs:543-576 | the envelope from its keys |
| `SessionCodec.StringsSay` | rust/crates/lfs_core/src/session_json.rs:543-576 | the folders are the texts of the list in order, other items skipped |
| `SessionCodec.DecodePayload` | rust/crates/lfs_core/src/session_json.rs:304-412 | decoding a payload yields the normal form: default kind and auth type, empty via id dropped, credentials only when opted in, extras as the column decodes |
| `SessionCodec.LosslessIff` | rust/crates/lfs_core/src/session_json.rs:208-412 | every field survives if and only if kind and auth type are given, the via id is not empty, and no credential is left behind |
| `SessionCodec.KindAndPasswordAreLost` | rust/crates/lfs_core/src/session_json.rs:208-412 | a session on which they do not |
| `SessionCodec.ExtrasBack` | rust/crates/lfs_core/src/session_json.rs:423-454 | extras that went through the encoder decode as the stored column does |
| `SessionCodec.ExtrasColumnIff` | rust/crates/lfs_core/src/session_json.rs:450-616 | writing and reading the extras column is the identity if and only if the extras are settled |
| `SessionCodec.WholeDoubleInColumn` | rust/crates/lfs_core/src/session_json.rs:450-616 | extras on which it is not |
| `SessionCodec.DecodePayloads` | rust/crates/lfs_core/src/session_json.rs:484-496 | decoding an array of payloads yields the normal forms, in order |
| `SessionCodec.EncodeSessionArray` | rust/crates/lfs_core/src/session_json.rs:469-477 | the array decodes to the normal forms; an error exactly when some extras are malformed |
| `SessionCodec.EncodeSnapshotEnvelope` | rust/crates/lfs_core/src/session_json.rs:518-576 | the envelope decodes to the normal forms, the folders and the description |
| `QrCodec.EncodeSessionCompact` | rust/crates/lfs_core/src/qr_codec_encode.rs:90-126 | the object has exactly the stated short keys, defaults omitted |
| `QrCodec.CompactSays` | rust/crates/lfs_core/src/qr_codec_encode.rs:90-126 | label, host and user under their keys |
| `QrCodec.CompactOptionsSay` | rust/crates/lfs_core/src/qr_codec_encode.rs:90-126 | port, folder and authentication under their keys, defaults omitted |
| `QrCodec.CompactSecretsSay` | rust/crates/lfs_core/src/qr_codec_encode.rs:90-126 | key reference, manager mark and password under their keys |
| `QrCodec.CompactRoundTrip` | rust/crates/lfs_core/src/qr_codec_decode.rs:479-536 | encoding then decoding recovers every field through the omitted defaults; the password when opted in, the key as far as the key map has it |
| `QrCodec.ParseSessions` | rust/crates/lfs_core/src/qr_codec_decode.rs:307-329 | the rows of the object entries, and the map from short to fresh id |
| `QrCodec.ParseEntries` | rust/crates/lfs_core/src/qr_codec_decode.rs:315-326 | its loop |
| `QrCodec.ParseManagerKeys` | rust/crates/lfs_core/src/qr_codec_decode.rs:341-371 | one row per described key that has a PEM |
| `QrCodec.ParsePayload` | rust/crates/lfs_core/src/qr_codec_decode.rs:205-287 | an error exactly for a non-object, a newer version or none of the four main keys; otherwise the tables |
| `QrCodec.NameTable` | rust/crates/lfs_core/src/qr_codec_decode.rs:205-536 | the keys of a payload |
| `QrCodec.RejectedIff` | rust/crates/lfs_core/src/qr_codec_decode.rs:264-287 | which payloads are refused, by their keys |
| `QrCodec.VersionSays` | rust/crates/lfs_core/src/qr_codec_decode.rs:264-287 | the version a payload claims under `v`, 1 by default |
| `QrCodec.SessionTagIff` | rust/crates/lfs_core/src/qr_codec_decode.rs:222-228 | a session-tag row is there exactly when an object under `st` links a decoded session to a tag under `ti` |
| `QrCodec.SessionSnippetIff` | rust/crates/lfs_core/src/qr_codec_decode.rs:231-237 | a session-snippet row is there exactly when an object under `ss` links one to a snippet under `ni` |
| `QrCodec.SessionSays` | rust/crates/lfs_core/src/qr_codec_decode.rs:479-536 | a session row by the keys of its entry |
| `QrCodec.SessionLoginSays` | rust/crates/lfs_core/src/qr_codec_decode.rs:479-536 | its port, 22 by default, its authentication, by password by default, and its password |
| `QrCodec.SessionKeySays` | rust/crates/lfs_core/src/qr_codec_decode.rs:503-515 | its key: a manager's is named, another's brought along, both only with a PEM |
| `QrCodec.NoKeySays` | rust/crates/lfs_core/src/qr_codec_decode.rs:503-515 | no key reference, no key |
| `QrCodec.KeyMapLast` | rust/crates/lfs_core/src/qr_codec_decode.rs:289-300 | the key map holds the last text under each key |
| `QrCodec.KeyMapUnknown` | rust/crates/lfs_core/src/qr_codec_decode.rs:289-300 | and nothing else |
| `QrCodec.KeyRowSays` | rust/crates/lfs_core/src/qr_codec_decode.rs:341-371 | a key row by the keys of its description |
| `QrCodec.RowAt` | rust/crates/lfs_core/src/qr_codec_decode.rs:307-329 | an entry's row comes after those of the object entries before it |
| `QrCodec.RemapIff` | rust/crates/lfs_core/src/qr_codec_decode.rs:307-329 | a short id is mapped exactly when some entry carries it, and to the fresh id of the last one |
| `QrCodec.LinkKeptIff` | rust/crates/lfs_core/src/qr_codec_decode.rs:441-468 | a link row is there if and only if the payload has a link object for it whose short id some session entry carries, and it has the id of the row decoded from the last such entry |
| `QrCodec.LinksPointAtSessions` | rust/crates/lfs_core/src/qr_codec_decode.rs:205-468 | every session-tag and session-snippet row points at a decoded session |
| `QrCodec.KeyIdHasPem` | rust/crates/lfs_core/src/qr_codec_decode.rs:479-515 | a kept key id has a PEM |
| `QrCodec.KeyRowsIff` | rust/crates/lfs_core/src/qr_codec_decode.rs:341-371 | a key row is emitted for a key with a PEM if and only if an object describes it, and carries that PEM |
| `QrCodec.KeyIdResolvesIff` | rust/crates/lfs_core/src/qr_codec_decode.rs:341-515 | a kept key id resolves to an emitted key row if and only if `mk` holds an object for it |
| `QrCodec.KeyIdDanglesWithoutMk` | rust/crates/lfs_core/src/qr_codec_decode.rs:490-515 | without `mk` the kept key id dangles |
| `Broker.SecurityKeyBroker.Retain` | macos/Runner/SecurityKeyBroker.swift:247-259 | registers the delegate and schedules its timer |
| `Broker.SecurityKeyBroker.DidComplete` | macos/Runner/SecurityKeyBroker.swift:106-195 | the delegate signals |
| `Broker.SecurityKeyBroker.DropTag` | macos/Runner/SecurityKeyBroker.swift:197-265 | and drops its tag |
| `Broker.SecurityKeyBroker.ReapIfStillPending` | macos/Runner/SecurityKeyBroker.swift:267-280 | the removal of a tag that is still pending and then its signal; nothing else |
| `Broker.SecurityKeyBroker.DrainAllAsTimeout` | macos/Runner/SecurityKeyBroker.swift:282-298 | the removal of every tag and then one signal for each, in some order |
| `Broker.CountersSay` | macos/Runner/SecurityKeyBroker.swift:106-298 | over every run, one timer for each request and one signal for each callback, timeout or drained tag |
| `Broker.StepInv` | macos/Runner/SecurityKeyBroker.swift:210-326 | every step keeps: requests of a tag equal its signals plus those still to come, and a pending tag has a timer left |
| `Broker.RunInv` | macos/Runner/SecurityKeyBroker.swift:210-326 | so does every serialised run without a tag requested while pending |
| `Broker.SignalledOnce` | macos/Runner/SecurityKeyBroker.swift:106-326 | a tag requested once is signalled at most once in every such run, and exactly once when its timer has run |
| `Broker.CallbackRacesTimer` | macos/Runner/SecurityKeyBroker.swift:106-280 | off the main queue a timer between a callback's signal and its drop signals a second time |
| `Broker.TimerRacesCallback` | macos/Runner/SecurityKeyBroker.swift:106-280 | and so does a callback between a timer's removal and its signal |
| `Broker.SharedTagIsLost` | macos/Runner/SecurityKeyBroker.swift:247-259 | a tag requested again while it waits leaves the account short by one |
| `Broker.SharedRequestNeverSignalled` | macos/Runner/SecurityKeyBroker.swift:210-326 | from any accounted state, and whatever follows on the main queue, one of the two requests is never signalled |
| `Broker.StepAccountedIff` | macos/Runner/SecurityKeyBroker.swift:106-326 | however the broker is driven, with removals under the lock and signals outside it, a step keeps one signal per request if and only if it takes no waiting entry away with no signal to come, no timer or drain removes a tag whose callback has signalled, and no callback comes after such a removal |
| `Broker.AccountedThroughoutIff` | macos/Runner/SecurityKeyBroker.swift:210-326 | run by run: one signal per request at every point if and only if that is so of every step |
| `Broker.DisciplineDecides` | macos/Runner/SecurityKeyBroker.swift:210-326 | a driver gets one signal per request in all its runs if and only if it serialises the paths and requests no pending tag again |
| `ConfigStore.RunShape` | rust/crates/lfs_core/src/config_store.rs:104-349 | in every interleaving a pending config exists exactly when a deadline does, and then equals the current one |
| `ConfigStore.UpdateSays` | rust/crates/lfs_core/src/config_store.rs:178-190 | an update is current and pending at once and due 300 milliseconds later |
| `ConfigStore.InitSays` | rust/crates/lfs_core/src/config_store.rs:104-145 | what `init` adopts from each kind of file |
| `ConfigStore.StepRefines` | rust/crates/lfs_core/src/config_store.rs:104-349 | every step of the debounced store is matched by the write-through store |
| `ConfigStore.RunRefines` | rust/crates/lfs_core/src/config_store.rs:104-349 | so the debounced store refines it in every run with one flush at a time, successful writes and no `init` over pending work |
| `ConfigStore.AtRestAgrees` | rust/crates/lfs_core/src/config_store.rs:104-349 | at rest the disk is that of the write-through store |
| `ConfigStore.FlushMakesDurable` | rust/crates/lfs_core/src/config_store.rs:297-325 | after a flush and until the next `init`, the disk at rest holds the current config, whatever updates and flushes come between |
| `ConfigStore.FailedWriteIsLost` | rust/crates/lfs_core/src/config_store.rs:297-325 | a failed write has already left `pending` |
| `ConfigStore.InitDropsPending` | rust/crates/lfs_core/src/config_store.rs:104-145 | `init` drops what is pending |
| `ConfigStore.ConcurrentFlushesReorder` | rust/crates/lfs_core/src/config_store.rs:297-325 | of two flushes under way the older config can be written last |
| `ConfigStore.DisciplineDecides` | rust/crates/lfs_core/src/config_store.rs:104-349 | a driver has agreement at rest in all its runs if and only if it meets all three conditions |
| `ConfigStore.AgreesThroughoutIff` | rust/crates/lfs_core/src/config_store.rs:104-349 | run by run, with any number of flushes under way, writes that may fail and `init` over pending work, but no `init` while a write is under way: the disk at rest is always that of the write-through store if and only if every write that ends with nothing newer pending or under way brings the current config or fails over a file that has it, and every `init` that takes effect finds what is pending in the file already |
| `ConfigStore.Store.InitStore` | rust/crates/lfs_core/src/config_store.rs:104-145 | adopts the file, or the defaults when it is absent or unreadable; an error, and no change, exactly when it does not parse |
| `ConfigStore.Store.SetJson` | rust/crates/lfs_core/src/config_store.rs:178-190 | an update, or an error without change |
| `ConfigStore.Store.UpdateSecurityTier` | rust/crates/lfs_core/src/config_store.rs:269-290 | an update of the tier that keeps the modifiers, and no step when nothing changes |
| `ConfigStore.Store.Flush` | rust/crates/lfs_core/src/config_store.rs:297-325 | takes pending or current and writes it; Ok means the file holds the current config, and publishes it when there is a bus |
| `ConfigStore.Store.TickIfDue` | rust/crates/lfs_core/src/config_store.rs:335-349 | flushes exactly when the deadline has passed |
| `Secrets.SecretStore.PutBytes` | rust/crates/lfs_core/src/secrets.rs:87-94 | pins the new buffer and unpins the one it replaces |
| `Secrets.RunContents` | rust/crates/lfs_core/src/secrets.rs:79-173 | buffers, pins and pages aside, in every run the store holds what a plain map holds after the same calls, which is what `has` and `get` read |
| `Secrets.SecretStore.DropId` | rust/crates/lfs_core/src/secrets.rs:109-114 | removes and unpins; nothing when absent |
| `Secrets.SecretStore.TakeBytes` | rust/crates/lfs_core/src/secrets.rs:124-134 | the same, handing out the buffer |
| `Secrets.SecretStore.ClearAll` | rust/crates/lfs_core/src/secrets.rs:138-144 | unpins each buffer once and empties the map |
| `Secrets.SecretStore.RenameId` | rust/crates/lfs_core/src/secrets.rs:159-173 | moves the buffer, unpinning only one it overwrites; true exactly when the source is there |
| `Secrets.RunPins` | rust/crates/lfs_core/src/secrets.rs:57-173 | every run keeps the pin account |
| `Secrets.PinnedExactly` | rust/crates/lfs_core/src/secrets.rs:57-173 | in every run the pinned buffers are exactly the non-empty resident ones: nothing unpinned twice, nothing leaving the map pinned |
| `Secrets.RenameMoves` | rust/crates/lfs_core/src/secrets.rs:159-173 | a rename keeps the moved buffer and its pin and every other secret |
| `Secrets.RunNoLeak` | rust/crates/lfs_os_security/src/lib.rs:208-248 | in every run, no page stays locked that no resident secret touches |
| `Secrets.PagesSay` | rust/crates/lfs_os_security/src/lib.rs:208-248 | the pages of a buffer are those of its bytes |
| `Secrets.RunGuarded` | rust/crates/lfs_os_security/src/lib.rs:208-248 | while secrets share no page, the locked pages are exactly those of the resident secrets |
| `Secrets.SharedPageUnlocks` | rust/crates/lfs_core/src/secrets.rs:67-71 | dropping one of two secrets on a page unlocks the other |
| `Secrets.StepGuardedIff` | rust/crates/lfs_core/src/secrets.rs:57-173 | a step keeps every resident secret locked if and only if no buffer that it drops or overwrites shares a page with one that stays |
| `Secrets.GuardedThroughoutIff` | rust/crates/lfs_core/src/secrets.rs:57-173 | run by run: every resident secret is locked at every point if and only if that is so of every step |
| `Secrets.PagesDecide` | rust/crates/lfs_core/src/secrets.rs:57-173 | an allocator keeps every resident secret locked in all its runs if and only if it lets no two share a page |
| `History.HistoryRegistry.Create` | rust/crates/lfs_core/src/session_history.rs:50-64 | mints the next handle with empty stacks |
| `History.HistoryRegistry.DropHandle` | rust/crates/lfs_core/src/session_history.rs:68-71 | removes the handle |
| `History.HistoryRegistry.PushUndo` | rust/crates/lfs_core/src/session_history.rs:76-86 | pushes, drops the oldest beyond the cap, clears redo |
| `History.HistoryRegistry.UndoLast` | rust/crates/lfs_core/src/session_history.rs:91-100 | pops undo and pushes the caller's state on redo |
| `History.HistoryRegistry.RedoLast` | rust/crates/lfs_core/src/session_history.rs:105-114 | the converse |
| `History.HistoryRegistry.ClearStacks` | rust/crates/lfs_core/src/session_history.rs:117-123 | empties both stacks |
| `History.RunCapped` | rust/crates/lfs_core/src/session_history.rs:59-123 | in every reachable state undo and redo together hold at most 50, although only push enforces a cap |
| `History.PushesKeepNewest` | rust/crates/lfs_core/src/session_history.rs:76-86 | pushing keeps the newest 50 snapshots, in order, and clears redo |
| `History.NewestSays` | rust/crates/lfs_core/src/session_history.rs:22-25 | the newest 50 |
| `History.CapSays` | rust/crates/lfs_core/src/session_history.rs:59-123 | the cap of both stacks together, as a number |
| `History.HandsOut` | rust/crates/lfs_core/src/session_history.rs:91-114 | an undo hands out the snapshot last pushed, a redo the one last undone |
| `History.CallsSay` | rust/crates/lfs_core/src/session_history.rs:50-123 | empty stacks for a new handle and after `clear`, none after `drop_handle`, and 1 as the first handle |
| `History.RunMinted` | rust/crates/lfs_core/src/session_history.rs:50-64 | every live handle was minted by some `create` |
| `History.HandlesIndependent` | rust/crates/lfs_core/src/session_history.rs:59-123 | an operation changes no other handle, and `create` hits no live one before the counter has gone round |
| `History.MovesKeepTimeline` | rust/crates/lfs_core/src/session_history.rs:91-114 | any mix of undos and redos keeps the timeline |
| `History.MovesRestore` | rust/crates/lfs_core/src/session_history.rs:91-114 | any mix that ends at the depth it started from restores the current state and both stacks |
| `History.UndoThenRedo` | rust/crates/lfs_core/src/session_history.rs:91-114 | in particular a redo after a successful undo |

## Left out

- Cryptography, key and certificate parsing, OS bindings, the database, the FRB adapter and the frontend.
- `log_sanitize.rs`, `threat_eval.rs`, `password_strength.rs`, `format.rs`, `clipboard.rs`, `transfer_conflict.rs`, `rate_limit.rs`, `deeplink.rs`: they would only add easy members.
- `path.rs` apart from `write_bytes_atomic`: basenames, parents, tilde expansion and the permission calls; hardening the temp file is a step without effect.
- The atomic write is modelled for one directory and one destination. The Windows arm is the model with the exclusive create switched off.
- Text is a sequence of characters with ASCII white space and ASCII case; positions are characters, not bytes. Case folding in the session tree is an arbitrary function.
- The include reader, the glob over the filesystem and tilde expansion are arbitrary functions; `expand_includes_with_fs`, which has the same structure over the real filesystem, is not modelled separately.
- The character scanners of ssh_config.rs (`strip_comment`, `split_keyword_value`, `split_host_patterns`) are recursive functions, not the loops they are in the source.
- The nested child vectors of the session tree are values: `ensure_folder_path` and `insert_session` are one function that returns the new tree, so update in place is not captured.
- `derive_empty_folders`, `derive_collapsed_folders`, `filter_sessions`, `count_in_folder`, `parse_ssh_target` and the sessions registry.
- The overflow panic of a debug build in the auto-lock timeout; the product wraps as in a release build. Clock arithmetic is unbounded.
- Sessions.UniqueLabel: the counter is unbounded; the source's 32-bit counter would need as many taken labels to overflow.
- KnownHosts: ports of table rows are natural numbers, whether a key body is base64 is a parameter, and a database error during an import is not modelled.
- JSON text, base64, deflate and SQL: a payload is a JSON value, and the parser of the extras column is an arbitrary function. A finite double is a real, so the two zeros are one and only the rounding of large unsigned numbers is modelled.
- QrCodec.ParsePayload: tags, folder tags, snippets, empty folders, config and known hosts are copied field by field and are left out, as are the always-empty columns of a session row; fresh ids are a parameter.
- The broker's status codes, messages and assertion bytes; its tags are unbounded numbers. The iOS broker differs only in the notification that drains it.
- `update_sync` and `update_security_probe_cache` of the config store: the same update as `set_json` on one slice.
- `init` of the config store reads the file and adopts it in one step.
- ConfigStore.AgreesThroughoutIff: has no `init` while a write is under way, because the two stores may then load different files.
- Secrets: pages of another size than 4 KiB (nothing in the proofs depends on the number), a refused `mlock` and the scrubbing of freed buffers; calls are sequential.
- History: reading the labels of the top snapshots.
