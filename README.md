# jerjerrod, modelled in Dafny

jerjerrod reports on the state of a developer's source checkouts. A configuration file
declares workspaces, which are directories of repositories, and single projects. Each git
or mercurial repository is inspected for:

- its branch;
- changed and untracked files;
- commits not yet pushed ("outgoing");
- stashes or shelves.

The result is kept in a disk cache, one JSON file per repository, that expires after an
hour (four hours for the outgoing check). From that record each project gets a status:
UNKNOWN, CHANGED, UNTRACKED, UNPUSHED, CLEAN or, for a workspace holding stray entries,
GARBAGE.

The command line lists project names by status and prints coloured summaries. It also
clears cache entries and keeps a "not today" ignore list. A powerline segment shows the
names in one status category and refreshes the cache in a background process.

The project models these files of the program:

| file | modules |
|---|---|
| `jerjerrod/caching.py` | `Caching` (over `Records`, the JSON records) |
| `jerjerrod/config.py` | `Config` |
| `jerjerrod/projects.py` | `Inspect`, for the inspectors and their output parsers; `Projects`, for repos, workspaces and enumeration |
| `jerjerrod/cli.py` | `Cli`: path shortening, the file-list text, styles and `RepoSummary` |
| `jerjerrod/powerline.py` | `Powerline` |
| `jerjerrod/cli/entrypoint.py` | `Entrypoint` |

`Common` holds `Option`, `Result` and the error kinds. `Strings` holds the string and path
functions the program takes from Python.

The entry point imports `RepoSummary`, `print_workspace_title` and `style` from
`jerjerrod.cli.utils`. That module is not part of this model; the definitions in
`jerjerrod/cli.py` stand in for it.

Everything outside the program is a parameter of the operation that reads it:

- the disk cache directory, as a map from file name to entry;
- the clock and today's midnight;
- command outputs and GitPython answers (`Inspect.Outputs`);
- directory listings, `.git`/`.hg` markers, `glob`, `expandvars`/`expanduser` and `realpath`;
- the exit status of the background process;
- the configuration file's lines and modification time;
- `$HOME`.

Objects whose fields the program updates become classes: `DiskCache`, `ConfigCache`,
`Inspector`, `Repo`, `Workspace`, `RepoSummary` and `PowerlineState`, the module globals of
`powerline.py`. Their methods are proved against specification functions (`Get`, `Put`,
`Load`, `ParseStatus`, `StatusOf`, `Aggregate`, `StatsOf`, `Layout`, `Matching`, `DropAll`,
…), and the lemmas state what the program promises about those functions.

## Model

| member | source | states |
|---|---|---|
| Strings.RStrip | jerjerrod/projects.py:31 | `rstrip()`: a prefix that does not end in whitespace, only whitespace cut |
| Strings.Strip | jerjerrod/config.py:25 | `strip()`: a contiguous piece of the input, cut after the leading whitespace run, with only whitespace cut at either end; the result neither starts nor ends with whitespace |
| Strings.Split | jerjerrod/projects.py:30 | `split('\n')`: at least one piece, no piece holds the separator, and joining the pieces gives the input back |
| Strings.SplitJoin | jerjerrod/projects.py:30 | splitting parts joined by a separator none of them holds gives the parts back |
| Strings.JoinContains | jerjerrod/powerline.py:102 | every part occurs in the text of the parts joined by a separator |
| Strings.Before | jerjerrod/config.py:34 | the keyword of `split(' ', 1)`: a prefix without the separator, followed by the separator when shorter than the input |
| Strings.FirstToken | jerjerrod/projects.py:114 | `re.split(r'\s+', s)[0]`: the longest whitespace-free prefix |
| Strings.Basename | jerjerrod/config.py:54 | `os.path.basename`: the slash-free tail, preceded by '/' when shorter than the path |
| Strings.Dirname | jerjerrod/cli/entrypoint.py:156 | `os.path.dirname` is a prefix of its argument |
| Strings.DirnameSpec | jerjerrod/cli/entrypoint.py:156 | the directory part is the text up to and including the last '/' with its trailing slashes cut, unless that text is all slashes (the root), and empty without a '/' |
| Strings.DirnameShrinks | jerjerrod/cli/entrypoint.py:153-156 | on a path longer than two characters without doubled slashes, `dirname` is strictly shorter and still free of doubled slashes, so the shortening loop ends |
| Strings.NatToString | jerjerrod/powerline.py:97 | `str(n)`: a non-empty run of digits whose decimal value is n |
| Caching.SlashesToColons | jerjerrod/caching.py:23 | `path.replace('/', ':')` keeps the length and leaves no '/' |
| Caching.SanitiseRoundTrip | jerjerrod/caching.py:20-23 | on a key without ':', replacing ':' by '/' undoes the sanitising |
| Caching.CachePath | jerjerrod/caching.py:20-23 | `_getcachepath` fails exactly on keys holding ':'; otherwise the name has no '/' and maps back to the key |
| Caching.CachePathInjective | jerjerrod/caching.py:20-23 | distinct encodable keys get distinct file names |
| Caching.Get | jerjerrod/caching.py:27-37 | a read fails exactly on a key holding ':'; it only ever removes entries; a hit leaves the directory as it was, comes from an unexpired entry and returns its stored value |
| Caching.Put | jerjerrod/caching.py:39-45 | a write fails exactly on a key holding ':'; otherwise the key's file holds the value stamped with the current time, it is the only name added, and every other entry is unchanged |
| Caching.Drop | jerjerrod/caching.py:47-50 | a clear fails exactly on a key holding ':'; otherwise the key's file is the only name removed and every other entry is unchanged |
| Caching.IgnoreGet | jerjerrod/caching.py:52-64 | the ignore record is dropped, and the list reads empty, exactly when it is absent or older than today's midnight; otherwise it is kept and the list is exactly its names |
| Caching.SetThenGet | jerjerrod/caching.py:27-45 | a value written and read back before it expires is returned unchanged |
| Caching.SetOtherKey | jerjerrod/caching.py:39-45 | writing one key leaves every other key's read unchanged |
| Caching.MissIsPermanent | jerjerrod/caching.py:27-35 | once a read misses, every later read of the key misses, whatever the expiry, so `_getinfo`'s "old value" read after a fresh miss always misses |
| Caching.GetFrame | jerjerrod/caching.py:27-37 | a read leaves the directory as it was, or deletes exactly the expired entry it found |
| Caching.ClearOnlyKey | jerjerrod/caching.py:47-50 | clearing makes the key read as absent, leaves other keys' reads unchanged, and is idempotent |
| Caching.IgnoreListExpiry | jerjerrod/caching.py:52-69 | the ignore list lasts the day it was written: read at a midnight no later than the write it gives the names, after a later midnight it is empty and the file is deleted |
| Caching.DiskCache.constructor | jerjerrod/caching.py:26 | a cache over the given directory and ignore file |
| Caching.DiskCache.GetCache | jerjerrod/caching.py:27-37 | `getcache` returns and leaves what `Get` says: absent, expired and deleted, or the stored value |
| Caching.DiskCache.SetCache | jerjerrod/caching.py:39-45 | `setcache` overwrites the key's file with the value at the current time; fails only on an unencodable key |
| Caching.DiskCache.ClearCache | jerjerrod/caching.py:47-50 | `clearcache` removes the key's file, if present; fails only on an unencodable key |
| Caching.DiskCache.GetIgnoreList | jerjerrod/caching.py:52-64 | `getignorelist` gives the stored names, or nothing and the file deleted when written before today's midnight |
| Caching.DiskCache.SetIgnoreList | jerjerrod/caching.py:66-69 | `setignorelist` stores the names at the current time, and reading them back the same day gives them |
| Inspect.NonBlank | jerjerrod/projects.py:30-33 | the kept lines are right-stripped pieces, never more than the pieces |
| Inspect.Kept | jerjerrod/projects.py:30-33 | the positions of the kept pieces, each a valid index |
| Inspect.KeptLines | jerjerrod/projects.py:30-33 | the k-th kept line is the right-stripped piece at the k-th kept position |
| Inspect.KeptIncreasing | jerjerrod/projects.py:30-33 | kept positions are strictly increasing, so the lines keep the output order |
| Inspect.KeptExactly | jerjerrod/projects.py:30-33 | a position is kept iff its piece is non-empty after `rstrip` |
| Inspect.NonBlankCount | jerjerrod/projects.py:30-33 | the number of kept lines is the number of pieces that are non-empty after `rstrip` |
| Inspect.CmdToLines | jerjerrod/projects.py:28-33 | `cmd2lines` yields only non-empty lines without trailing whitespace or newline |
| Inspect.CmdToLinesJoin | jerjerrod/projects.py:28-33 | lines written out one per row, each already a `cmd2lines` line, are read back exactly |
| Inspect.GitCodes | jerjerrod/projects.py:56-67 | a git status line is a change iff its two code characters are from "MADU " and not both blank, followed by a space; untracked iff it starts " ? " or "?? "; the path is everything after the third character; 'R' and '!' lines are rejected |
| Inspect.HgCodes | jerjerrod/projects.py:137-148 | an hg status line is a change iff it starts with one of "MADR!" and a space, untracked iff it starts "? "; the path follows the second character |
| Inspect.ClassifyGit | jerjerrod/projects.py:56-67 | a recognised git line has a three-character code ending in a space and the path after it; a change code is not two blanks and holds no '?' |
| Inspect.ClassifyHg | jerjerrod/projects.py:137-148 | a recognised hg line has a two-character code ending in a space and the path after it; untracked iff it starts "? " |
| Inspect.ParseStatus | jerjerrod/projects.py:55-69 | a parse gives one path per line; a failure names an unrecognised line of the output |
| Inspect.ParsedPathsAreNonEmpty | jerjerrod/projects.py:62-65 | a classified line of `cmd2lines` output has a non-empty path that does not end in whitespace |
| Inspect.PathsAppend | jerjerrod/projects.py:61-65 | the changed and untracked lists grow line by line, in output order |
| Inspect.ParseStatusSpec | jerjerrod/projects.py:55-69 | `statuslines` succeeds iff every line is classified; it then gives the changed and untracked paths in order, one per line; it fails on the first unexpected line, reporting that line |
| Inspect.ParseStatusOkIff | jerjerrod/projects.py:55-69 | parsing succeeds exactly when every line is a recognised status line |
| Inspect.ParseStatusValue | jerjerrod/projects.py:55-69 | a successful parse lists the changed and untracked paths in line order, one path per line |
| Inspect.ParseStatusFirstError | jerjerrod/projects.py:61-67 | a failed parse reports the first unrecognised line: every line before it was recognised |
| Inspect.ParseStatusPrefixErr | jerjerrod/projects.py:61-67 | once an unexpected line is met, the lines after it do not matter |
| Inspect.MatchRevision | jerjerrod/projects.py:84 | the revision group is "->" or a non-empty run of word characters |
| Inspect.ParseBranchLine | jerjerrod/projects.py:84 | a current-branch line outside the parenthesised forms names a branch made of word characters |
| Inspect.Tag | jerjerrod/projects.py:85-86 | each `git branch` line is paired with its match |
| Inspect.ScanBranches | jerjerrod/projects.py:85-105 | a completed scan parsed every line, and every WIP revision is also known |
| Inspect.ScanStepFacts | jerjerrod/projects.py:86-105 | one accepted line only adds revisions: a detached head or remote tip is marked found, a local tip known, and only the line's own revision can become known |
| Inspect.ScanKnownCarried | jerjerrod/projects.py:92-98 | every line parsed, and every known revision is carried by a line that is not a detached head |
| Inspect.ScanTipsRecorded | jerjerrod/projects.py:92-105 | after the scan every detached or remote tip is found and every local tip is known |
| Inspect.ScanPrefixErr | jerjerrod/projects.py:85-88 | the scan stops at its first unparsable line |
| Inspect.Probe | jerjerrod/projects.py:110-117 | an answer of "not published" means every line was well formed and none named a branch under "remotes/origin/" |
| Inspect.ProbeSpec | jerjerrod/projects.py:110-117 | on well-formed `--contains` output, a revision is published iff some listed branch starts with "remotes/origin/" |
| Inspect.CollectBranches | jerjerrod/projects.py:78-105 | the loop over `git branch --verbose --all` computes the known, found and WIP sets of the scan specification |
| Inspect.ProbeRevision | jerjerrod/projects.py:110-117 | the `--contains` loop computes the probe specification |
| Inspect.GitOutgoing | jerjerrod/projects.py:78-121 | git `getoutgoing` fails with the scan's error on a line it does not understand; otherwise it answers 0 only when every known revision not found is on an origin branch, "1+" only when one is not, and an error only when a probe fails |
| Inspect.HgOutgoing | jerjerrod/projects.py:158-186 | hg `getoutgoing`: "?" iff timed out, "1+" iff exit 0, "-" for the two unreachable-remote messages, 0 for "no changes found", otherwise an error carrying the output |
| Inspect.StashCount | jerjerrod/projects.py:188-190 | the shelve count of mercurial, like the stash count of git at lines 123-125, is the number of output lines that are non-empty after `rstrip` |
| Inspect.Inspector.constructor | jerjerrod/projects.py:39-40 | an inspector for one path, with nothing memoised and no query asked |
| Inspect.Inspector.StatusLines | jerjerrod/projects.py:55-69 | the status is parsed once and memoised on success; a memoised status is returned as is |
| Inspect.Inspector.Branch | jerjerrod/projects.py:47-53 | git gives GitPython's active branch (None when detached); hg gives the stripped `hg branch` output and fails with the `len(output)` assertion exactly when it is empty |
| Inspect.Inspector.Changed | jerjerrod/projects.py:71-72 | the changed list of the memoised status, else of a fresh parse, which is memoised; a parse failure gives its error and memoises nothing |
| Inspect.Inspector.Untracked | jerjerrod/projects.py:74-76 | git gives GitPython's untracked files; hg the untracked list of the memoised status, else of a fresh parse, whose failure gives its error and memoises nothing |
| Inspect.Inspector.Outgoing | jerjerrod/projects.py:78-121 | the git or hg outgoing specification, for the inspector's VCS |
| Inspect.Inspector.Stashes | jerjerrod/projects.py:123-125 | the number of non-blank lines of the stash or shelve list, recorded as one query |
| Config.PathToken | jerjerrod/config.py:36-38 | the path token is a quoted run or a maximal whitespace-free prefix; there is none when the rest is empty or starts with whitespace |
| Config.Unquote | jerjerrod/config.py:40-41 | `path[1:-1]` drops exactly the first and last character |
| Config.NonEmpty | jerjerrod/config.py:39 | keeps exactly the non-empty pieces |
| Config.NonEmptyKeepsAll | jerjerrod/config.py:39 | pieces that are all non-empty are kept whole |
| Config.Words | jerjerrod/config.py:39 | the flags are exactly the non-empty pieces of `split(' ')`, and none holds a space |
| Config.WordsJoin | jerjerrod/config.py:39 | flags written out with single spaces are read back as they were |
| Config.FirstInvalidFlag | jerjerrod/config.py:46-51 | the first flag that is neither `IGNORE=…` nor `SPOTLIGHT` |
| Config.ParseLine | jerjerrod/config.py:30-51 | a line without a space fails; otherwise the keyword is the text before the first space, a missing path token fails the assertion, the flags are the words after the token and the first invalid one is reported with the line number, and the path is the expansion of the token, unquoted when quoted |
| Config.ApplyLine | jerjerrod/config.py:30-67 | a comment changes nothing; a parse error is passed on; a parsed line is accepted iff its keyword is WORKSPACE, PROJECT or FORGET; an accepted line touches only workspaces or only single projects |
| Config.AsSingles | jerjerrod/config.py:57-60 | one single project per match, named by its basename, with the line's flags |
| Config.BlankOrCommentChangesNothing | jerjerrod/config.py:25-32 | a blank or comment line leaves the declarations unchanged |
| Config.CommentChangesNothing | jerjerrod/config.py:31-32 | a stripped line starting with `#` is accepted and leaves the declarations as they were |
| Config.BadFlagWins | jerjerrod/config.py:46-52 | an invalid flag is reported, with its line number, whatever the keyword |
| Config.WorkspacesLastMatchWins | jerjerrod/config.py:52-56 | among WORKSPACE matches sharing a basename, the last one is kept |
| Config.WorkspacesOtherNames | jerjerrod/config.py:52-56 | a WORKSPACE line leaves every other name's entry as it was |
| Config.ForgetWithoutMatch | jerjerrod/config.py:61-66 | FORGET of a path no single project has changes nothing |
| Config.ForgetRemovesFirst | jerjerrod/config.py:61-66 | FORGET removes exactly the first single project with that path and keeps the others in order |
| Config.LoadStopsAtFirstError | jerjerrod/config.py:21-27 | a failed reading reports the error of its first failing non-blank line, and keeps the declarations made before it |
| Config.LoadKeepsError | jerjerrod/config.py:23-27 | lines after a failing line are never read |
| Config.Load | jerjerrod/config.py:11-27 | a reading without error met no non-blank, non-comment line lacking a space |
| Config.StrLessIrreflexive | jerjerrod/config.py:80 | Python string order is irreflexive |
| Config.StrLessTransitive | jerjerrod/config.py:80 | Python string order is transitive |
| Config.StrLessTotal | jerjerrod/config.py:80 | Python string order is total on distinct strings |
| Config.SortedListingUnique | jerjerrod/config.py:75-80 | the sorted listing of the workspaces is unique |
| Config.InsertByName | jerjerrod/config.py:80 | inserting a new name into a sorted listing keeps it sorted and adds exactly that entry |
| Config.SortedListing | jerjerrod/config.py:75-80 | every workspace is listed exactly once, sorted by name |
| Config.ConfigCache.constructor | jerjerrod/powerline.py:18 | an empty, unpopulated configuration cache |
| Config.ConfigCache.ReadLine | jerjerrod/config.py:30-67 | `_readcfgline` applies the line to the declarations; on an error nothing changes |
| Config.ConfigCache.AddWorkspaceMatches | jerjerrod/config.py:52-56 | the WORKSPACE branch adds each match under its basename and touches nothing else |
| Config.ConfigCache.AppendSingles | jerjerrod/config.py:57-60 | the PROJECT branch appends the matches, in order |
| Config.ConfigCache.Forget | jerjerrod/config.py:61-66 | the FORGET branch removes the first single project with the path |
| Config.ConfigCache.Populate | jerjerrod/config.py:11-27 | populated once: no file gives no declarations; otherwise the declarations read up to the first error, and that error |
| Config.ConfigCache.GetWorkspaces | jerjerrod/config.py:70-82 | populates first as `Populate` does (no file: no declarations; else the file's declarations, failing with its first error); on success every held workspace exactly once, sorted by name |
| Config.ConfigCache.GetSingles | jerjerrod/config.py:85-87 | populates first as `Populate` does, failing with the file's first error; on success the single projects as held, in declaration order |
| Projects.StatusName | jerjerrod/projects.py:255-263 | every status is reported as "JERJERROD:…" |
| Projects.StatusNameInjective | jerjerrod/projects.py:255-263 | distinct statuses have distinct names |
| Projects.AsInfo | jerjerrod/projects.py:221 | a cached record is read back as the record stored, a miss as nothing |
| Projects.AsOutgoing | jerjerrod/projects.py:237-238 | a cached outgoing value is read back as the value stored, a miss as nothing |
| Projects.KeepOutgoing | jerjerrod/projects.py:241-244 | a timed-out remote check ("?") keeps the previous record's outgoing value when there is one, and only then is the live value not cached |
| Projects.StatusOf | jerjerrod/projects.py:252-263 | UNKNOWN iff no record; CHANGED iff changes or stashes; UNTRACKED iff only untracked files; UNPUSHED iff only outgoing; never GARBAGE |
| Projects.CleanMeansNothingPending | jerjerrod/projects.py:257-263 | CLEAN iff nothing is changed, stashed, untracked or outgoing; an unreachable or timed-out remote counts as unpushed |
| Projects.RecordBesideOutgoing | jerjerrod/projects.py:244-248 | writing the record after the outgoing value leaves the outgoing value readable |
| Projects.Repo.constructor | jerjerrod/projects.py:211-215 | a repo with its name, path and inspector, and no record yet |
| Projects.Repo.OutgoingFor | jerjerrod/projects.py:237-244 | a fresh cached value is used for mercurial; otherwise the inspector is asked and the answer cached unless a timeout fell back on the previous record; it fails on a ':' in the path, on a cached record in place of a flag, on a failed `hg outgoing` and on an unparsable git branch listing, and on nothing but those and a malformed `--contains` output |
| Projects.Repo.GetInfo | jerjerrod/projects.py:217-250 | `_getinfo` memoises; uses a fresh cached record; gives nothing without inspection; otherwise asks branch, changed, untracked, outgoing (when needed) and stashes in that order and caches the record, whose changed list (and, for mercurial, untracked list and branch) is the parsed status's; a failed `hg branch` or an unexpected status line gives an error with no record kept or cached, and then only an outgoing failure can fail it. This is the intended behaviour, with the mercurial branch decoded to text; as written, every inspected mercurial repo fails at the write (see Findings) |
| Projects.Repo.AskLocal | jerjerrod/projects.py:231-234 | branch, changed and untracked are asked in that order and succeed exactly when `hg branch` answers and the status parses; each failure gives its own error; the answers are git's active branch and untracked files or mercurial's stripped branch and parsed untracked list, with the parsed changed list |
| Projects.Repo.Assemble | jerjerrod/projects.py:231-250 | as intended, with the mercurial branch decoded to text: the record holds the status's changed list, the stash count, the outgoing flag, and git's branch and untracked files or mercurial's stripped branch and parsed untracked list, and is readable from the cache afterwards; the branch failure, then the status parse failure, each give their own error and write nothing; then the outgoing failures |
| Projects.Repo.AssembleAsWritten | jerjerrod/projects.py:131-134 | as written: the mercurial branch is bytes, so the record write at projects.py:248 fails for every mercurial repo; when branch, status and outgoing succeed, it fails after the outgoing flag is written and readable, and a missing record stays missing; a git repo is cached as in `Assemble` |
| Projects.OutgoingStepKeepsMiss | jerjerrod/projects.py:236-244 | the outgoing key's read and write leave a missing repo record missing |
| Projects.Repo.GetStatus | jerjerrod/projects.py:252-263 | the status of the record `_getinfo` gives; UNKNOWN iff there is none |
| Projects.Repo.ContainsPath | jerjerrod/projects.py:265-266 | true iff the resolved path starts with the repo path |
| Projects.PathJoin | jerjerrod/projects.py:287 | `join(path, name)` is the path, a '/' unless the path is empty or ends in one, and the name |
| Projects.PathJoinBasename | jerjerrod/projects.py:287 | the basename of a joined path is the slash-free name joined on |
| Projects.RepoEntries | jerjerrod/projects.py:285-295 | the listing entries holding `.git` or `.hg` become repos |
| Projects.GarbageNames | jerjerrod/projects.py:296-299 | no ignored name is garbage |
| Projects.ScanPartition | jerjerrod/projects.py:285-299 | an entry is a repo iff it has `.git` or `.hg`; otherwise it is garbage iff it is not ignored |
| Projects.Aggregate | jerjerrod/projects.py:301-310 | the workspace status is one of the repos' statuses, GARBAGE only with garbage, CLEAN only when every repo is CLEAN and there is no garbage |
| Projects.AggregateIsWorst | jerjerrod/projects.py:301-310 | the workspace status is the worst status among its repos and its garbage, in the order UNKNOWN, CHANGED, UNTRACKED, UNPUSHED, GARBAGE, CLEAN |
| Projects.AggregateOrderFree | jerjerrod/projects.py:303 | the workspace status depends only on the set of repo statuses |
| Projects.Workspace.constructor | jerjerrod/projects.py:270-278 | a new workspace holds, in listing order, one fresh repo per VCS entry and the other non-ignored names as garbage |
| Projects.Workspace.Scan | jerjerrod/projects.py:285-299 | `_scan` appends one fresh repo per entry holding `.git` or `.hg`, with the inspector `.git` is tried for first, and appends every other non-ignored name to the garbage |
| Projects.Workspace.ScanEntries | jerjerrod/projects.py:286-299 | the listing loop makes one new, distinct repo per VCS entry, in listing order, and collects the other names that are not ignored |
| Projects.Workspace.NewRepo | jerjerrod/projects.py:287-295 | an entry's repo is new, named after the entry, at the joined path, with the git inspector when `.git` is present and the mercurial one otherwise |
| Projects.Workspace.GetStatus | jerjerrod/projects.py:301-310 | each repo's status is its own `getstatus(caninspect)`; the result is the aggregate of those statuses and the garbage, no better than any repo's status |
| Projects.Workspace.ContainsPath | jerjerrod/projects.py:315-316 | true iff the resolved path starts with the workspace path |
| Projects.IgnoreNames | jerjerrod/projects.py:321-324 | the ignored names are exactly the payloads of the `IGNORE=` flags |
| Projects.IgnoreFlags | jerjerrod/projects.py:321-324 | the loop collects exactly the ignored names of the flags, in order |
| Projects.FirstBadSingle | jerjerrod/projects.py:329-337 | the first single project with flags or without a VCS directory |
| Projects.FirstBadSingleAt | jerjerrod/projects.py:329-337 | the first refused single is the index before which all are accepted |
| Projects.SingleCheck | jerjerrod/projects.py:329-337 | a single project is accepted iff it has no flags and a `.git` or `.hg` directory, git chosen first; without flags the refusal names the path |
| Projects.AllProjects | jerjerrod/projects.py:319-340 | `get_all_projects` yields the workspaces in order, each with its ignore list, its garbage and one scanned repo per VCS entry of its listing, then the single projects up to the first refused one, whose error it then raises |
| Projects.BuildWorkspaces | jerjerrod/projects.py:320-328 | one new workspace per declaration, in order, each scanned over its own listing with its ignored names |
| Projects.NewWorkspace | jerjerrod/projects.py:321-326 | a declaration's workspace has its name, path, `IGNORE=` names, repos and garbage |
| Projects.BuildSingles | jerjerrod/projects.py:329-340 | one new repo per single project up to the first refused one, whose error is then reported |
| Cli.ShortPath | jerjerrod/cli.py:14-17 | a path under a non-empty $HOME becomes "~" followed by the rest; anything else is unchanged |
| Cli.ShortPathExpands | jerjerrod/cli.py:14-17 | expanding "~" undoes the shortening |
| Cli.ShortPathIgnoresComponents | jerjerrod/cli.py:15 | the test is a string prefix, not a path component: $HOME /home/al shortens /home/alice/src to "~ice/src" |
| Cli.Abbreviated | jerjerrod/cli.py:38 | each file becomes its first path component followed by "/..." |
| Cli.FilesStr | jerjerrod/cli.py:26-43 | empty for no files; the joined names when they fit in 40 characters, else the abbreviated ones when those fit, else the count |
| Cli.FilesStrEmpty | jerjerrod/cli.py:26-43 | the file text is empty iff there are no files or only one empty name |
| Cli.ColourCode | jerjerrod/cli.py:46-56 | each colour is a two-digit ANSI code |
| Cli.Sgr | jerjerrod/cli.py:106 | an escape sequence adds three characters to its code |
| Cli.Attr | jerjerrod/cli.py:48 | a set attribute adds its escape sequence, a cleared one the 5-character reset, an absent one nothing |
| Cli.ClickStyle | jerjerrod/cli.py:106 | the styled text is the text plus the colour, attribute and reset sequences |
| Cli.Look | jerjerrod/cli.py:46-56 | changed is red and bold, unpushed yellow, untracked red, anything else green |
| Cli.Style | jerjerrod/cli.py:46-56 | `style` shows exactly the text and adds 13 escape characters for changed, 14 otherwise |
| Cli.SgrShowsNothing | jerjerrod/cli.py:106 | an escape sequence shows nothing |
| Cli.PlainShows | jerjerrod/cli.py:109 | text without escape characters shows as itself |
| Cli.AttrShowsNothing | jerjerrod/cli.py:48 | attribute sequences show nothing |
| Cli.PrefixShowsNothing | jerjerrod/cli.py:48 | the colour and attribute prefix of a styled text shows nothing |
| Cli.TextThenReset | jerjerrod/cli.py:48 | text followed by the reset shows as the text |
| Cli.ClickStyleShows | jerjerrod/cli.py:48 | a styled text shows exactly its text |
| Cli.OutgoingShown | jerjerrod/cli.py:72 | an outgoing value of 0 is shown as "", anything else as is; truthiness is kept |
| Cli.OutgoingText | jerjerrod/cli.py:96 | `'%s' % outgoing`: a text value as itself, a number as its decimal digits, with a '-' iff negative |
| Cli.IntToString | jerjerrod/cli.py:103 | `str(n)`: decimal digits denoting n, led by '-' iff n is negative |
| Cli.MainStyle | jerjerrod/cli.py:75-80 | the title style is changed iff files changed, else unpushed iff outgoing, else untracked iff untracked files or stashes, else none |
| Cli.MainStyleAndStatus | jerjerrod/cli.py:75-80 | the title is unstyled iff the repo is CLEAN, and styled changed only for CHANGED repos |
| Cli.MainStyleDiffersFromStatus | jerjerrod/cli.py:75-80 | stashes alone make the status CHANGED but the title untracked-styled; untracked files with outgoing commits make the status UNTRACKED but the title unpushed-styled |
| Cli.StatsOf | jerjerrod/cli.py:89-103 | at most four labelled stats, none iff no changed or untracked text, no outgoing and no stashes |
| Cli.StatsOfEntries | jerjerrod/cli.py:89-103 | "Changed: " + the changed text is shown iff that text is non-empty; "Outgoing: " + the value iff it is truthy; "Untracked: " + the untracked text iff non-empty; "Stashes: " + the count iff non-zero |
| Cli.StatsOfOnly | jerjerrod/cli.py:89-103 | no other stat is shown |
| Cli.StatsOfOrder | jerjerrod/cli.py:89-103 | the stats come in the order changed, outgoing, untracked, stashes |
| Cli.SlotsOfLabels | jerjerrod/cli.py:93-103 | each label fixes the stat's place in that order |
| Cli.Opt | jerjerrod/cli.py:92-103 | a stat is present iff its condition holds |
| Cli.QuietIffClean | jerjerrod/cli.py:105 | a summary prints no stats line iff the repo is CLEAN |
| Cli.Pipe | jerjerrod/cli.py:106 | the styled separator is 16 characters long |
| Cli.Rendered | jerjerrod/cli.py:93-103 | each stat is styled by its own style |
| Cli.Texts | jerjerrod/cli.py:93-103 | the visible text of each stat |
| Cli.Layout | jerjerrod/cli.py:105-112 | no line without stats; when the joined line is at most 80 characters, that one indented line; otherwise one indented line per styled stat, in order |
| Cli.StyledThenPipe | jerjerrod/cli.py:107 | a styled stat followed by the separator shows the text then " \| " |
| Cli.OneLineShows | jerjerrod/cli.py:107 | the joined line shows exactly the stat texts separated by " \| " |
| Cli.JoinLength | jerjerrod/cli.py:107 | the joined length is at least the parts' minimum lengths plus the separators |
| Cli.ThreeStatsNeverShareALine | jerjerrod/cli.py:108 | because the 80-character test counts escape characters, three or more stats always get one line each |
| Cli.RepoSummary.constructor | jerjerrod/cli.py:62-80 | the summary holds the record's fields, the outgoing value as shown and the title style |
| Cli.SummaryLines | jerjerrod/cli.py:85-112 | a summary is the title line, styled by the main style and showing the indent, "> " and the short path, then the stats layout; it is one line iff there are no stats |
| Cli.RepoSummary.PrintNow | jerjerrod/cli.py:85-112 | `printnow` writes the styled title and then the stats layout |
| Cli.RepoSummary.CollectStats | jerjerrod/cli.py:89-103 | the stats list is built in the order changed, outgoing, untracked, stashes |
| Cli.WriteStats | jerjerrod/cli.py:105-112 | the lines written are the layout of the stats |
| Cli.WriteEach | jerjerrod/cli.py:111-112 | the fallback writes each styled entry on a line of its own, indented, in order |
| Cli.Summarise | jerjerrod/cli.py:62-66 | `RepoSummary(repo, indent)` calls `_getinfo(True)`, fails exactly when it does, and summarises the record it leaves. That record is the memoised one unchanged, or a fresh cached one read without inspecting, or one assembled from the inspector and readable from the cache afterwards. A failed `hg branch` or an unexpected status line fails with no record kept or cached; otherwise only the outgoing query can fail; the ignore record is untouched |
| Powerline.Matching | jerjerrod/powerline.py:85-91 | at most one name per project |
| Powerline.MatchingMembers | jerjerrod/powerline.py:85-91 | a name is listed iff some project of that name has one of the wanted statuses |
| Powerline.MatchingStep | jerjerrod/powerline.py:90-91 | each project appends its name when its status is wanted |
| Powerline.Truncated | jerjerrod/powerline.py:93-97 | more than five UNKNOWN names become the first five and a "(+N more)" note; any other list is kept whole |
| Powerline.TruncationKeepsCount | jerjerrod/powerline.py:94-97 | the number in the note plus five is the number of names |
| Powerline.NamesSegments | jerjerrod/powerline.py:99-106 | no segment without names, else one segment highlighted with the category, divided by JERJERROD:SEPARATOR, whose text contains every name |
| Powerline.NamesSegmentsNames | jerjerrod/powerline.py:102 | the segment text splits at spaces back into the names when no name holds a space |
| Powerline.PowerlineState.constructor | jerjerrod/powerline.py:13-19 | idle, with no refresh seen and an empty configuration cache |
| Powerline.PowerlineState.Refresh | jerjerrod/powerline.py:22-42 | a running refresh is only polled; a failed one stays failed; an idle state starts one when forced, when none has finished yet, or an hour after the last |
| Powerline.PowerlineState.WsScanCount | jerjerrod/powerline.py:45-55 | "***" while a refresh runs, "!!!" once one failed, nothing while idle |
| Powerline.PowerlineState.ExpireCfgCache | jerjerrod/powerline.py:63-78 | the file is looked at at most every 3 seconds, and the configuration cache is dropped when its modification time changed |
| Powerline.PowerlineState.WsNames | jerjerrod/powerline.py:81-106 | the configuration check as `_expirecfgcache` (check time, file time, the cache kept or replaced, the stat failure), the refresh time unchanged; an unknown category fails; a configuration error is raised by the call that populates the cache and later calls use the partial declarations until the file's time changes; otherwise the names in the category of the enumerated projects, truncated, as segments, and an idle state starts a refresh iff one of them is UNKNOWN |
| Powerline.Reported | jerjerrod/powerline.py:86-87 | the enumerated projects the loop gets through: each name with its status, up to the first status that raised, and that error |
| Powerline.PowerlineState.NamesFromCache | jerjerrod/powerline.py:85-106 | the configuration cache is populated only if it was not, and a load error is raised only by that call, with the declarations read before it kept; otherwise the enumeration of the sorted workspaces and the singles it holds |
| Powerline.PowerlineState.ListNames | jerjerrod/powerline.py:85-106 | the names in the category of the projects `get_all_projects` yields before a status or a refused single fails, truncated and as segments, else that failure; an idle state starts a refresh iff one of those projects is UNKNOWN |
| Powerline.PowerlineState.CollectNames | jerjerrod/powerline.py:84-91 | the loop keeps the names whose status is the category, in order, and an idle state starts a refresh iff some project is UNKNOWN |
| Entrypoint.Ancestors | jerjerrod/cli/entrypoint.py:152-156 | the directories looked at: the path, then its successive parents, each longer than two characters and a prefix of the path |
| Entrypoint.RootNeverChecked | jerjerrod/cli/entrypoint.py:153 | "/" and every other path of at most two characters is never looked at |
| Entrypoint.ChainKeys | jerjerrod/cli/entrypoint.py:146-150 | only directories holding a repo are cleared: their record key, and their outgoing key unless `--local` |
| Entrypoint.DropAll | jerjerrod/cli/entrypoint.py:143-156 | clearing the keys succeeds iff all are encodable, and then removes exactly their files; otherwise it fails on one of them |
| Entrypoint.DropAllCons | jerjerrod/cli/entrypoint.py:148-150 | clearing key by key: an encodable key is removed before the rest, an unencodable one stops the clear |
| Entrypoint.ChainStep | jerjerrod/cli/entrypoint.py:154-156 | one step up: the directory's keys, then those of its parent |
| Entrypoint.ClearedReadAbsent | jerjerrod/cli/entrypoint.py:143-156 | after a complete clear every cleared key reads as absent |
| Entrypoint.KeyNamesHas | jerjerrod/cli/entrypoint.py:148-150 | every encodable cleared key's file is among those removed |
| Entrypoint.DoClearCache | jerjerrod/cli/entrypoint.py:143-156 | `do_clearcache` clears, for each resolved path, the keys of every repo directory from the path up, and leaves the ignore list alone |
| Entrypoint.CheckAndClear | jerjerrod/cli/entrypoint.py:146-150 | `_checkandclear` clears a repo directory's keys and nothing for other directories |
| Entrypoint.FirstSelected | jerjerrod/cli/entrypoint.py:81-88 | the first project named by the argument or containing its resolved path |
| Entrypoint.FirstSelectedAt | jerjerrod/cli/entrypoint.py:81-88 | the first selected project is the one before which none is selected |
| Entrypoint.SelectProject | jerjerrod/cli/entrypoint.py:77-91 | the search gives the first selected project; without one, the enumeration's error or "No project" |
| Entrypoint.WorkspaceTitle | jerjerrod/cli.py:20-21 | the workspace title shows ":: ", the short path and " ++" |
| Entrypoint.GarbageLines | jerjerrod/cli/entrypoint.py:100-108 | no garbage gives no line; one name gives "GARBAGE: " and the name; more names give the "GARBAGE:" heading then each name on its own line, indented two more spaces; all styled untracked |
| Entrypoint.GarbageShows | jerjerrod/cli/entrypoint.py:100-108 | the visible texts of those lines are the indent, the heading and the names |
| Entrypoint.SummariseWorkspace | jerjerrod/cli/entrypoint.py:93-108 | the workspace title, then the summary of each repo in order, then the garbage lines; when a repo fails, the lines echoed before it, the title and the summaries of the repos before it, and only those |
| Entrypoint.Summaries | jerjerrod/cli/entrypoint.py:97-99 | the summaries of the repos one after another, indented by two spaces |
| Entrypoint.SummariesSnoc | jerjerrod/cli/entrypoint.py:97-99 | one more repo adds its summary at the end |
| Entrypoint.SummariseRepos | jerjerrod/cli/entrypoint.py:97-99 | the loop echoes the summaries of the repos it got records for, in order, and stops at the first repo that fails |
| Entrypoint.SummariseNext | jerjerrod/cli/entrypoint.py:97-99 | one repo's summary is echoed after its record is fetched as `_getinfo(True)` fetches it, failing exactly when that does; the repos before it keep their records |
| Entrypoint.PrintSummary | jerjerrod/cli/entrypoint.py:98-99 | `RepoSummary(repo, indent).printnow()` echoes the summary lines of the record `_getinfo(True)` leaves, and fails exactly when that fetch does |
| Entrypoint.SummariseRepo | jerjerrod/cli/entrypoint.py:109-111 | a single repo is summarised with no indent: the styled "> " title, then the stats layout, of the record `_getinfo(True)` leaves; it fails exactly when that fetch does |
| Entrypoint.NamesByStatus | jerjerrod/cli/entrypoint.py:48-68 | no argument fails; otherwise the names of the projects whose status is one of the arguments, in order, then the enumeration's error, if any |
| Entrypoint.Listed | jerjerrod/cli/entrypoint.py:127-130 | the ignore set written out as a list of the same names |
| Entrypoint.NotToday | jerjerrod/cli/entrypoint.py:114-130 | as written: any argument picking a project fails on a missing attribute before the list is saved; otherwise the list is saved unchanged, dated now |
| Entrypoint.NotTodayIntended | jerjerrod/cli/entrypoint.py:114-130 | as intended: the saved list is today's list plus the path of every project an argument picks, and nothing else |

## Findings

| source | as written | input that shows it | evidently intended | confidence | as-written member | corrected member |
|---|---|---|---|---|---|---|
| jerjerrod/cli/entrypoint.py:127 | `ignore.add(proj.project_path)` reads an attribute that neither `Workspace` nor `Repo` has, so it raises `AttributeError` before the list is saved | `jerjerrod nottoday NAME`, where NAME is the name of a configured project | the picked project's path (`_path`) is added to today's ignore list | high, not executed | Entrypoint.NotToday | Entrypoint.NotTodayIntended |
| jerjerrod/projects.py:131-134 | `getbranch` returns the stripped bytes of `check_output`; `_getinfo` puts them in the record (line 232) and `setcache` runs `json.dumps` on it (caching.py:40), which raises `TypeError` on bytes under Python 3 | `jerjerrod summary` in a mercurial repo with no fresh cached record, whose `hg branch` prints `default` | the branch is decoded to text, so the record is cached and kept | high, not executed | Projects.Repo.AssembleAsWritten | Projects.Repo.Assemble |

## Left out

- I/O is out of scope. Subprocesses, GitPython, the file system, the clock, `$HOME`, `glob`, `expandvars`/`expanduser`, `realpath` and `os.listdir` become parameters; their outputs are given, not computed.
- Cache files hold JSON payloads. The model keeps the decoded value, not the JSON text.
- A cache file read as a repo record but holding an outgoing value is reported as `MalformedRecord`. The program would raise `KeyError` or `TypeError` at a later use.
- Projects.Repo.OutgoingFor: a fresh `...outgoing` cache file that holds a repo record (a JSON object) is reported as `MalformedRecord` for a mercurial repo. The program uses the object as the outgoing value and caches it with the record; the object is truthy, so the repo reports UNPUSHED. The model's outgoing values are numbers or text only, so it does not follow this path. A git repo asks again and is not affected.
- `_getcachepath` on a key holding ':' is modelled as an error, because `base64.b64encode` rejects a `str`. The base64 alphabet is not modelled.
- `setcache` runs `mkdir -p` to create the cache directory. That is not modelled; the directory is a map that always exists.
- `cmd2lines` decodes UTF-8, which the model does not: outputs are given as text. Whitespace (`\s`, `strip()`, `rstrip()`) follows `str.isspace()`, but `\w` is restricted to ASCII letters, digits and underscore, where Python also accepts Unicode letters and digits.
- Inspect.Inspector.Branch: the mercurial branch is taken as decoded text. The program keeps the bytes `check_output` returns, and `json.dumps` refuses them when the record is cached (see Findings).
- Projects.Repo.GetInfo: models the intended record, with a text branch. As written, `_getinfo(True)` raises `TypeError` for every inspected mercurial repo, right after the outgoing flag is written. No mercurial record is ever cached and `_info` is never set, so `namesbystatus`, `summary` and `getstatus(True)` fail on every mercurial repo. `Projects.Repo.AssembleAsWritten` models that path; `Fetched`, and the summaries built on it, follow the intended `GetInfo`.
- Projects.Repo.Assemble: the corrected record assembly, with the branch decoded. The program as written never reaches its record write for a mercurial repo (see `AssembleAsWritten`).
- `print(err.output)` in mercurial `getoutgoing` is output only and is left out.
- Inspect.GitOutgoing: set iteration order decides which unpublished revision is probed first. The model chooses any order, so its contract allows every result an order could give.
- Projects.Workspace.GetStatus: the statuses of the repos are returned as a ghost out-parameter, each tied to its repo's record. The method requires the workspace's repo objects to be distinct, which `_scan` guarantees because it makes a new object per entry; aliasing between a workspace's repos is not modelled.
- Entrypoint.SummariseWorkspace: requires the same distinctness of the workspace's repos. The records the summaries come from are a ghost out-parameter.
- `Project.setcache`, `isscanning` and `getgarbage` only store or return a field. The cache is passed to each operation instead of stored.
- Powerline.PowerlineState.WsNames: the projects are enumerated from the configuration cache, but the status each reports without inspecting is an input (`status(k)` for the k-th project). It is not computed from the disk cache here, because the status computation is modelled by `Repo.GetStatus` and `Workspace.GetStatus`.
- Entrypoint.NamesByStatus: each enumerated project's name and inspected status, and the failure that ends the enumeration, are inputs. The program enumerates from a fresh configuration cache and inspects each project first.
- The powerline's background process is the state `Sub`. Its start is a state change and its exit status a parameter of the poll.
- Entrypoint: with no subcommand, the group prints a banner, clears the cache for ".", summarises "." and exits with status 2. This is the composition of `DoClearCache` and the summary; the banner and exit status are I/O.
- Entrypoint: `--version` and the `click.Path(exists=True)` check on `clearcache` arguments are click's own work.
- Entrypoint.DoClearCache: `exists(join(path, '.git'))` is the `isRepo` parameter, which any file or directory satisfies.
- Entrypoint.Listed: `setignorelist` writes the set in Python's iteration order. The model writes some order of the same names.
- Cli: `click.style` is modelled by its ANSI convention: colour, bold and dim sequences, then the text and a reset. `click.echo` is the list of lines returned.
- Cli.RepoSummary.constructor: `_branch` is stored but never printed.
