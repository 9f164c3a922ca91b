/** The command-line entry points: clearing the cache entries of the repos around some
    paths, picking the project a summary is asked for, listing project names by status, and
    the "not today" ignore list. Path resolution (`realpath`), the existence of `.git` and
    `.hg` directories and the enumerated projects are parameters. */
module Entrypoint {
  import opened Common
  import opened Strings
  import opened Records
  import opened Caching
  import opened Inspect
  import opened Projects
  import opened Cli
  import opened Powerline

  // ---------------------------------------------------------------------------------
  // clearcache

  /** The directories `do_clearcache` looks at for one resolved path: the path, then each
      successive `dirname`, while it is longer than two characters. */
  function Ancestors(p: string): (r: seq<string>)
    requires !HasDoubleSlash(p)
    ensures r == [] <==> |p| <= 2
    ensures forall k :: 0 <= k < |r| ==> |r[k]| > 2 && r[k] <= p
    ensures forall k :: 0 < k < |r| ==> |r[k]| < |r[k - 1]|
    decreases |p|
  {
    if |p| <= 2 then []
    else
      DirnameShrinks(p);
      var rest := Ancestors(Dirname(p));
      assert forall k :: 0 <= k < |rest| ==> rest[k] <= p by {
        forall k | 0 <= k < |rest|
          ensures rest[k] <= p
        {
          assert rest[k] <= Dirname(p) && Dirname(p) <= p;
        }
      }
      [p] + rest
  }

  /** The root directory, and any other path of at most two characters, is never looked at. */
  lemma RootNeverChecked(p: string)
    requires !HasDoubleSlash(p)
    ensures "/" !in Ancestors(p)
    ensures forall q :: q in Ancestors(p) ==> |q| > 2
  {
  }

  /** The keys cleared for one directory holding a repo: its record, and its outgoing flag
      unless `--local` was given. */
  function DirKeys(d: string, local: bool): seq<string>
  {
    [d] + (if local then [] else [OutgoingKey(d)])
  }

  /** The keys cleared along a chain of directories, in order. */
  function ChainKeys(dirs: seq<string>, local: bool, isRepo: string -> bool): (r: seq<string>)
    ensures forall k :: k in r ==> exists d :: d in dirs && isRepo(d) && (k == d || (!local && k == OutgoingKey(d)))
    ensures forall d :: d in dirs && isRepo(d) ==> d in r && (!local ==> OutgoingKey(d) in r)
    ensures local ==> forall k :: k in r <==> k in dirs && isRepo(k)
  {
    if dirs == [] then []
    else
      var rest := ChainKeys(dirs[1..], local, isRepo);
      assert forall d :: d in dirs[1..] ==> d in dirs;
      (if isRepo(dirs[0]) then DirKeys(dirs[0], local) else []) + rest
  }

  /** Every key `do_clearcache` clears, in order, for the given arguments. */
  function ClearedKeys(paths: seq<string>, local: bool, resolve: string -> string, isRepo: string -> bool): seq<string>
    requires forall i :: 0 <= i < |paths| ==> !HasDoubleSlash(resolve(paths[i]))
  {
    if paths == [] then []
    else ChainKeys(Ancestors(resolve(paths[0])), local, isRepo) + ClearedKeys(paths[1..], local, resolve, isRepo)
  }

  /** The cache file names of the encodable keys. */
  function KeyNames(keys: seq<string>): set<string>
  {
    if keys == [] then {}
    else (if ':' in keys[0] then {} else {CachePath(keys[0]).value}) + KeyNames(keys[1..])
  }

  /** Clearing the keys one after the other: stops at the first key that cannot be
      encoded, with the directory as it then is. */
  function DropAll(files: map<string, Entry>, keys: seq<string>): (r: (Result<()>, map<string, Entry>))
    ensures r.0.Ok? <==> forall k :: k in keys ==> ':' !in k
    ensures r.0.Err? ==> exists k :: k in keys && r.0.error == UnencodableKey(k)
    ensures r.0.Ok? ==> r.1 == files - KeyNames(keys)
    decreases |keys|
  {
    if keys == [] then (Ok(()), files)
    else
      match Drop(files, keys[0])
      case Err(e) => (Err(e), files)
      case Ok(next) =>
        var rest := DropAll(next, keys[1..]);
        assert forall k :: k in keys[1..] ==> k in keys;
        assert rest.0.Ok? ==> rest.1 == files - KeyNames(keys) by {
          if rest.0.Ok? {
            assert rest.1 == (files - {CachePath(keys[0]).value}) - KeyNames(keys[1..]);
          }
        }
        rest
  }

  /** After a complete clear, every cleared key reads as absent. */
  lemma ClearedReadAbsent(files: map<string, Entry>, keys: seq<string>, k: string, expiry: real, now: real)
    requires DropAll(files, keys).0.Ok?
    requires k in keys
    ensures Get(DropAll(files, keys).1, k, expiry, now).result == Ok(None)
  {
    KeyNamesHas(keys, k);
  }

  lemma {:induction false} KeyNamesHas(keys: seq<string>, k: string)
    requires k in keys && ':' !in k
    ensures CachePath(k).value in KeyNames(keys)
  {
    if keys[0] != k {
      KeyNamesHas(keys[1..], k);
    }
  }

  /** Clearing a key that can be encoded, then the rest, is clearing the rest in the
      directory without it; a key that cannot be encoded stops the clear there. */
  lemma DropAllCons(files: map<string, Entry>, k: string, rest: seq<string>)
    ensures Drop(files, k).Ok? ==> DropAll(files, [k] + rest) == DropAll(Drop(files, k).value, rest)
    ensures Drop(files, k).Err? ==> DropAll(files, [k] + rest) == (Err(Drop(files, k).error), files)
  {
    assert ([k] + rest)[1..] == rest;
  }

  /** One step up the chain of directories. */
  lemma ChainStep(p: string, local: bool, isRepo: string -> bool, later: seq<string>)
    requires |p| > 2 && !HasDoubleSlash(p)
    ensures !HasDoubleSlash(Dirname(p)) && |Dirname(p)| < |p|
    ensures ChainKeys(Ancestors(p), local, isRepo) + later
      == (if isRepo(p) then DirKeys(p, local) else []) + (ChainKeys(Ancestors(Dirname(p)), local, isRepo) + later)
  {
    DirnameShrinks(p);
    var rest := Ancestors(Dirname(p));
    assert Ancestors(p) == [p] + rest;
    ChainKeysCons(p, rest, local, isRepo);
    var head := if isRepo(p) then DirKeys(p, local) else [];
    ConcatAssoc(head, ChainKeys(rest, local, isRepo), later);
  }

  /** Regrouping a concatenation, kept apart so that the regrouped form is the only one
      `ChainStep` sees. */
  lemma ConcatAssoc(a: seq<string>, b: seq<string>, c: seq<string>)
    ensures a + b + c == a + (b + c)
  { }

  /** The keys of a chain: those of its first directory, then those of the rest. */
  lemma ChainKeysCons(d: string, rest: seq<string>, local: bool, isRepo: string -> bool)
    ensures ChainKeys([d] + rest, local, isRepo)
      == (if isRepo(d) then DirKeys(d, local) else []) + ChainKeys(rest, local, isRepo)
  {
    assert ([d] + rest)[1..] == rest;
  }

  /** `do_clearcache(path, local)` */
  method DoClearCache(paths: seq<string>, local: bool, resolve: string -> string, isRepo: string -> bool,
                      cache: DiskCache)
    returns (r: Result<()>)
    requires forall i :: 0 <= i < |paths| ==> !HasDoubleSlash(resolve(paths[i]))
    modifies cache
    ensures (r, cache.files) == DropAll(old(cache.files), ClearedKeys(paths, local, resolve, isRepo))
    ensures cache.ignoreRecord == old(cache.ignoreRecord)
  {
    ghost var goal := DropAll(cache.files, ClearedKeys(paths, local, resolve, isRepo));
    var i := 0;
    while i < |paths|
      invariant 0 <= i <= |paths|
      invariant goal == DropAll(cache.files, ClearedKeys(paths[i..], local, resolve, isRepo))
      invariant cache.ignoreRecord == old(cache.ignoreRecord)
    {
      var trypath := resolve(paths[i]);
      ghost var later := ClearedKeys(paths[i + 1..], local, resolve, isRepo);
      assert paths[i..][1..] == paths[i + 1..];
      ghost var pending := ChainKeys(Ancestors(trypath), local, isRepo) + later;
      while |trypath| > 2
        invariant !HasDoubleSlash(trypath)
        invariant pending == ChainKeys(Ancestors(trypath), local, isRepo) + later
        invariant goal == DropAll(cache.files, pending)
        invariant cache.ignoreRecord == old(cache.ignoreRecord)
        decreases |trypath|
      {
        ChainStep(trypath, local, isRepo, later);
        ghost var next := ChainKeys(Ancestors(Dirname(trypath)), local, isRepo) + later;
        r := CheckAndClear(trypath, local, isRepo, cache, next);
        if r.Err? {
          return;
        }
        trypath := Dirname(trypath);
        pending := next;
      }
      assert pending == later;
      i := i + 1;
    }
    assert paths[|paths|..] == [];
    r := Ok(());
  }

  /** `_checkandclear(path)`: one directory's keys, when it holds a repo. `next` stands for
      the keys cleared after it. */
  method CheckAndClear(dir: string, local: bool, isRepo: string -> bool, cache: DiskCache, ghost next: seq<string>)
    returns (r: Result<()>)
    modifies cache
    ensures cache.ignoreRecord == old(cache.ignoreRecord)
    ensures var keys := (if isRepo(dir) then DirKeys(dir, local) else []) + next;
      r.Ok? ==> DropAll(old(cache.files), keys) == DropAll(cache.files, next)
    ensures var keys := (if isRepo(dir) then DirKeys(dir, local) else []) + next;
      r.Err? ==> (r, cache.files) == DropAll(old(cache.files), keys)
  {
    r := Ok(());
    assert [] + next == next;
    if isRepo(dir) {
      var tail := (if local then [] else [OutgoingKey(dir)]) + next;
      assert DirKeys(dir, local) + next == [dir] + tail;
      r := ClearKey(dir, cache, tail);
      if r.Err? {
        return;
      }
      if !local {
        r := ClearKey(OutgoingKey(dir), cache, next);
      }
    }
  }

  /** `clearcache(key)`, the first of the keys `[key] + rest` cleared in turn. */
  method ClearKey(key: string, cache: DiskCache, ghost rest: seq<string>) returns (r: Result<()>)
    modifies cache
    ensures cache.ignoreRecord == old(cache.ignoreRecord)
    ensures r.Ok? ==> DropAll(old(cache.files), [key] + rest) == DropAll(cache.files, rest)
    ensures r.Err? ==> (r, cache.files) == DropAll(old(cache.files), [key] + rest)
  {
    DropAllCons(cache.files, key, rest);
    r := cache.ClearCache(key);
  }

  // ---------------------------------------------------------------------------------
  // summary

  /** Whether `present_summary` takes a project for its argument: by name, or because its
      path is a prefix of the resolved argument. */
  predicate Selects(p: Project, arg: string, resolved: string)
  {
    ProjectName(p) == arg || ProjectPath(p) <= resolved
  }

  /** The index of the first project taken, or the number of projects. */
  function FirstSelected(projects: seq<Project>, arg: string, resolved: string): (k: nat)
    ensures k <= |projects|
    ensures forall j :: 0 <= j < k ==> !Selects(projects[j], arg, resolved)
    ensures k < |projects| ==> Selects(projects[k], arg, resolved)
  {
    if projects == [] then 0
    else if Selects(projects[0], arg, resolved) then 0
    else 1 + FirstSelected(projects[1..], arg, resolved)
  }

  /** The search of `present_summary`: the first enumerated project taken; without one, the
      failure that cut the enumeration short, or "No project". */
  method SelectProject(projects: seq<Project>, failure: Option<Error>, arg: string, resolved: string)
    returns (r: Result<Project>)
    ensures var k := FirstSelected(projects, arg, resolved);
      && (k < |projects| ==> r == Ok(projects[k]))
      && (k == |projects| ==> r == Err(if failure.Some? then failure.value else NoProject(arg)))
  {
    var i := 0;
    while i < |projects|
      invariant 0 <= i <= |projects|
      invariant forall j :: 0 <= j < i ==> !Selects(projects[j], arg, resolved)
    {
      if ProjectName(projects[i]) == arg {
        FirstSelectedAt(projects, arg, resolved, i);
        return Ok(projects[i]);
      }
      if ProjectPath(projects[i]) <= resolved {
        FirstSelectedAt(projects, arg, resolved, i);
        return Ok(projects[i]);
      }
      i := i + 1;
    }
    FirstSelectedAt(projects, arg, resolved, |projects|);
    match failure {
      case Some(e) => r := Err(e);
      case None => r := Err(NoProject(arg));
    }
  }

  /** The first selected project is the one before which none is selected. */
  lemma {:induction false} FirstSelectedAt(projects: seq<Project>, arg: string, resolved: string, k: nat)
    requires k <= |projects|
    requires forall j :: 0 <= j < k ==> !Selects(projects[j], arg, resolved)
    requires k < |projects| ==> Selects(projects[k], arg, resolved)
    ensures FirstSelected(projects, arg, resolved) == k
  {
    if k > 0 {
      FirstSelectedAt(projects[1..], arg, resolved, k - 1);
    }
  }

  /** `print_workspace_title`: the home-relative workspace path between ":: " and " ++", in
      bold blue. */
  function WorkspaceTitle(home: string, path: string): (r: string)
    ensures Esc !in ShortPath(home, path) ==> StripAnsi(r) == ":: " + ShortPath(home, path) + " ++"
  {
    var text := ":: " + ShortPath(home, path) + " ++";
    var r := ClickStyle(text, Blue, Some(true), None);
    if Esc in ShortPath(home, path) then r
    else
      assert Esc !in text;
      ClickStyleShows(text, Blue, Some(true), None, []);
      assert r + [] == r;
      r
  }

  /** The garbage lines of a workspace summary, indented by `indent`, all in the untracked
      style: one line naming the only garbage entry, else a heading and one line per entry,
      indented by two more spaces. */
  function GarbageLines(garbage: seq<string>, indent: string): (r: seq<string>)
    ensures garbage == [] <==> r == []
    ensures |garbage| == 1 ==> r == [Style(Some(SUntracked), indent + "GARBAGE: " + garbage[0])]
    ensures |garbage| > 1 ==>
      && |r| == |garbage| + 1 && r[0] == Style(Some(SUntracked), indent + "GARBAGE:")
      && forall k :: 0 <= k < |garbage| ==> r[k + 1] == Style(Some(SUntracked), indent + "  " + garbage[k])
  {
    if |garbage| == 1 then [Style(Some(SUntracked), indent + "GARBAGE: " + garbage[0])]
    else if |garbage| == 0 then []
    else [Style(Some(SUntracked), indent + "GARBAGE:")]
         + seq(|garbage|, k requires 0 <= k < |garbage| => Style(Some(SUntracked), indent + "  " + garbage[k]))
  }

  /** What the terminal shows of the garbage lines: every garbage name, after the label or
      under the heading. */
  lemma GarbageShows(garbage: seq<string>, indent: string)
    requires Esc !in indent && forall k :: 0 <= k < |garbage| ==> Esc !in garbage[k]
    ensures var r := GarbageLines(garbage, indent);
      && (|garbage| == 1 ==> StripAnsi(r[0]) == indent + "GARBAGE: " + garbage[0])
      && (|garbage| > 1 ==> StripAnsi(r[0]) == indent + "GARBAGE:")
      && (|garbage| > 1 ==> forall k :: 0 <= k < |garbage| ==> StripAnsi(r[k + 1]) == indent + "  " + garbage[k])
  {
    assert Esc !in "GARBAGE: " && Esc !in "GARBAGE:" && Esc !in "  ";
  }

  /** The summary lines of repos with the given paths and records, indented by two, one
      repo after the other; each repo writes at least its title. */
  function Summaries(home: string, records: seq<(string, RepoInfo)>): (r: seq<string>)
    ensures |r| >= |records|
  {
    if records == [] then []
    else
      var last := records[|records| - 1];
      Summaries(home, records[..|records| - 1]) + SummaryLines(home, last.0, 2, last.1)
  }

  /** One more repo's summary follows the summaries before it. */
  lemma SummariesSnoc(home: string, records: seq<(string, RepoInfo)>, path: string, info: RepoInfo)
    ensures Summaries(home, records + [(path, info)]) == Summaries(home, records) + SummaryLines(home, path, 2, info)
  {
    assert (records + [(path, info)])[..|records|] == records;
  }

  /** The first `|records|` repos have the given paths and records. */
  predicate Recorded(repos: seq<Repo>, records: seq<(string, RepoInfo)>)
    reads set repo | repo in repos
  {
    && |records| <= |repos|
    && forall k :: 0 <= k < |records| ==> repos[k].info == Some(records[k].1) && repos[k].path == records[k].0
  }

  /** Recording the next repo. */
  lemma RecordedSnoc(repos: seq<Repo>, records: seq<(string, RepoInfo)>, next: (string, RepoInfo))
    requires Recorded(repos, records) && |records| < |repos|
    requires repos[|records|].info == Some(next.1) && repos[|records|].path == next.0
    ensures Recorded(repos, records + [next])
  {
  }

  /** One repo of the workspace summary: its lines, which extend the summaries of the repos
      before it, and its record added to theirs; their records stay as they were. */
  method SummariseNext(repos: seq<Repo>, i: nat, ghost records: seq<(string, RepoInfo)>, home: string,
                       cache: DiskCache, now: real, out: Outputs)
    returns (more: Result<seq<string>>, ghost records': seq<(string, RepoInfo)>)
    requires Recorded(repos, records) && i == |records| < |repos|
    requires forall k :: 0 <= k < i ==> repos[k] != repos[i]
    modifies repos[i], repos[i].insp, cache
    ensures Fetched(repos[i], cache, now, out, more.Ok?)
    ensures Recorded(repos, records)
    ensures more.Ok? ==> repos[i].info.Some? && records' == records + [(repos[i].path, repos[i].info.value)]
    ensures more.Ok? ==> Recorded(repos, records')
    ensures more.Ok? ==> Summaries(home, records') == Summaries(home, records) + more.value
  {
    var repo := repos[i];
    more := PrintSummary(repo, 2, home, cache, now, out);
    records' := records;
    forall k | 0 <= k < i
      ensures repos[k].info == Some(records[k].1) && repos[k].path == records[k].0
    {
      assert old(repos[k].info) == Some(records[k].1) && repos[k] != repo;
    }
    if more.Ok? {
      records' := records + [(repo.path, repo.info.value)];
      RecordedSnoc(repos, records, (repo.path, repo.info.value));
      SummariesSnoc(home, records, repo.path, repo.info.value);
    }
  }

  /** The repo summaries of a workspace, one repo after the other: `records` are the paths
      and records of the repos summarised, a prefix of them all. A repo whose record cannot
      be had stops the summaries, after the lines of the repos before it. */
  method SummariseRepos(repos: seq<Repo>, home: string, cache: DiskCache, now: real, world: string -> Outputs)
    returns (shown: seq<string>, r: Result<()>, ghost records: seq<(string, RepoInfo)>)
    requires forall j, k :: 0 <= j < k < |repos| ==> repos[j] != repos[k]
    modifies repos, (set repo | repo in repos :: repo.insp), cache
    ensures Recorded(repos, records) && shown == Summaries(home, records)
    ensures r.Ok? <==> |records| == |repos|
  {
    shown := [];
    records := [];
    var i := 0;
    while i < |repos|
      invariant 0 <= i <= |repos| && |records| == i
      invariant Recorded(repos, records)
      invariant shown == Summaries(home, records)
    {
      var more;
      ghost var next;
      more, next := SummariseNext(repos, i, records, home, cache, now, world(repos[i].path));
      if more.Err? {
        return shown, Err(more.error), records;
      }
      records := next;
      shown := shown + more.value;
      i := i + 1;
    }
    r := Ok(());
  }

  /** The workspace branch of `present_summary`: the title, a summary of each repo indented
      by two, then the garbage; `records` are the paths and records of the repos summarised.
      A repo whose record cannot be had stops it, after the lines of the repos before it
      have been written. */
  method SummariseWorkspace(ws: Workspace, home: string, cache: DiskCache, now: real, world: string -> Outputs)
    returns (printed: seq<string>, r: Result<()>, ghost records: seq<(string, RepoInfo)>)
    requires ws.Distinct()
    modifies ws.repos, (set repo | repo in ws.repos :: repo.insp), cache
    ensures Recorded(ws.repos, records)
    ensures r.Ok? ==> |records| == |ws.repos|
    ensures r.Ok? ==> printed == [WorkspaceTitle(home, ws.path)] + Summaries(home, records) + GarbageLines(ws.garbage, "  ")
    ensures r.Err? ==> |records| < |ws.repos| && printed == [WorkspaceTitle(home, ws.path)] + Summaries(home, records)
  {
    var title := WorkspaceTitle(home, ws.path);
    var repos := ws.repos;
    var shown;
    shown, r, records := SummariseRepos(repos, home, cache, now, world);
    assert ws.repos == repos;
    if r.Err? {
      return [title] + shown, r, records;
    }
    printed := [title] + shown + GarbageLines(ws.garbage, "  ");
  }

  /** `RepoSummary(repo, indent).printnow()`: the lines written for one repo, once its
      record is had. */
  method PrintSummary(repo: Repo, indent: nat, home: string, cache: DiskCache, now: real, out: Outputs)
    returns (r: Result<seq<string>>)
    modifies repo, repo.insp, cache
    ensures Fetched(repo, cache, now, out, r.Ok?)
    ensures r.Ok? ==> repo.info.Some? && r.value == SummaryLines(home, repo.path, indent, repo.info.value)
  {
    var summary := Summarise(repo, indent, cache, now, out);
    match summary {
      case Err(e) => return Err(e);
      case Ok(s) =>
        var lines := s.PrintNow(home);
        return Ok(lines);
    }
  }

  /** The single-repo branch of `present_summary`: the repo's summary, unindented. */
  method SummariseRepo(repo: Repo, home: string, cache: DiskCache, now: real, out: Outputs)
    returns (r: Result<seq<string>>)
    modifies repo, repo.insp, cache
    ensures Fetched(repo, cache, now, out, r.Ok?)
    ensures r.Ok? ==> repo.info.Some? && r.value == SummaryLines(home, repo.path, 0, repo.info.value)
    ensures r.Ok? ==> r.value[0] == Style(MainStyle(repo.info.value), "> " + ShortPath(home, repo.path))
  {
    r := PrintSummary(repo, 0, home, cache, now, out);
    assert seq(0, _ => ' ') + "> " + ShortPath(home, repo.path) == "> " + ShortPath(home, repo.path);
  }

  // ---------------------------------------------------------------------------------
  // namesbystatus

  /** `namesbystatus(status...)`: the names printed, in enumeration order, of the projects
      whose inspected status is one of the arguments, then the failure that cut the
      enumeration short, if any. `listed` holds each enumerated project's name and status. */
  method NamesByStatus(statuses: seq<string>, listed: seq<(string, Status)>, failure: Option<Error>)
    returns (printed: seq<string>, r: Result<()>)
    ensures |statuses| == 0 ==> printed == [] && r == Err(AssertionFailed("len(status)"))
    ensures |statuses| > 0 ==> printed == Matching(listed, statuses)
    ensures |statuses| > 0 ==> r == (if failure.Some? then Err(failure.value) else Ok(()))
  {
    printed := [];
    if |statuses| == 0 {
      return [], Err(AssertionFailed("len(status)"));
    }
    var i := 0;
    while i < |listed|
      invariant 0 <= i <= |listed|
      invariant printed == Matching(listed[..i], statuses)
    {
      if StatusName(listed[i].1) in statuses {
        printed := printed + [listed[i].0];
      }
      MatchingStep(listed, statuses, i);
      i := i + 1;
    }
    assert listed[..|listed|] == listed;
    match failure {
      case Some(e) => r := Err(e);
      case None => r := Ok(());
    }
  }

  // ---------------------------------------------------------------------------------
  // nottoday

  /** Whether any argument picks any of the projects. */
  predicate AnyPicked(projects: seq<Project>, args: seq<string>, resolve: string -> string)
  {
    exists i, j :: 0 <= i < |projects| && 0 <= j < |args| && Selects(projects[i], args[j], resolve(args[j]))
  }

  /** The elements of a set, in some order. */
  method Listed(s: set<string>) returns (r: seq<string>)
    ensures forall n :: n in r <==> n in s
  {
    r := [];
    var todo := s;
    while todo != {}
      invariant todo <= s
      invariant forall n :: n in r <==> n in s && n !in todo
      decreases todo
    {
      var n :| n in todo;
      r := r + [n];
      todo := todo - {n};
    }
  }

  /** `nottoday(names_and_paths)`. A project picked by an argument is to be added to the
      ignore list under its `project_path` attribute, which no project has, so any pick
      fails before the list is written back; otherwise the list is written back as it was
      read. */
  method NotToday(args: seq<string>, resolve: string -> string, projects: seq<Project>, failure: Option<Error>,
                  cache: DiskCache, midnight: real, now: real)
    returns (r: Result<()>)
    modifies cache
    ensures cache.files == old(cache.files)
    ensures AnyPicked(projects, args, resolve) ==>
      r == Err(MissingAttribute("project_path")) && cache.ignoreRecord == IgnoreGet(old(cache.ignoreRecord), midnight).1
    ensures !AnyPicked(projects, args, resolve) && failure.Some? ==>
      r == Err(failure.value) && cache.ignoreRecord == IgnoreGet(old(cache.ignoreRecord), midnight).1
    ensures !AnyPicked(projects, args, resolve) && failure.None? ==>
      && r.Ok? && cache.ignoreRecord.Some? && cache.ignoreRecord.value.mtime == now
      && forall n :: n in cache.ignoreRecord.value.names <==> n in IgnoreGet(old(cache.ignoreRecord), midnight).0
  {
    var ignore := cache.GetIgnoreList(midnight);
    var i := 0;
    while i < |projects|
      invariant 0 <= i <= |projects|
      invariant forall i', j :: 0 <= i' < i && 0 <= j < |args| ==> !Selects(projects[i'], args[j], resolve(args[j]))
    {
      var j := 0;
      while j < |args|
        invariant 0 <= j <= |args|
        invariant forall j' :: 0 <= j' < j ==> !Selects(projects[i], args[j'], resolve(args[j']))
      {
        if ProjectName(projects[i]) == args[j] || ProjectPath(projects[i]) <= resolve(args[j]) {
          return Err(MissingAttribute("project_path"));
        }
        j := j + 1;
      }
      i := i + 1;
    }
    match failure {
      case Some(e) => return Err(e);
      case None =>
    }
    var names := Listed(ignore);
    cache.SetIgnoreList(names, now);
    r := Ok(());
  }

  /** Some argument before position (i, j) of the double loop picks a project with path n. */
  predicate PickedBefore(projects: seq<Project>, args: seq<string>, resolve: string -> string, i: int, j: int, n: string)
  {
    exists i', j' :: 0 <= i' < |projects| && 0 <= j' < |args| && (i' < i || (i' == i && j' < j))
      && Selects(projects[i'], args[j'], resolve(args[j'])) && ProjectPath(projects[i']) == n
  }

  /** `nottoday` as evidently intended: the path of every project an argument picks is added
      to today's ignore list, and the list is written back. */
  method NotTodayIntended(args: seq<string>, resolve: string -> string, projects: seq<Project>,
                          failure: Option<Error>, cache: DiskCache, midnight: real, now: real)
    returns (r: Result<()>)
    modifies cache
    ensures cache.files == old(cache.files)
    ensures failure.Some? ==>
      r == Err(failure.value) && cache.ignoreRecord == IgnoreGet(old(cache.ignoreRecord), midnight).1
    ensures failure.None? ==>
      && r.Ok? && cache.ignoreRecord.Some? && cache.ignoreRecord.value.mtime == now
      && forall n :: n in cache.ignoreRecord.value.names <==>
           n in IgnoreGet(old(cache.ignoreRecord), midnight).0
           || PickedBefore(projects, args, resolve, |projects|, 0, n)
  {
    var ignore := cache.GetIgnoreList(midnight);
    ghost var base := ignore;
    var i := 0;
    while i < |projects|
      invariant 0 <= i <= |projects|
      invariant cache.files == old(cache.files)
      invariant cache.ignoreRecord == IgnoreGet(old(cache.ignoreRecord), midnight).1
      invariant forall n :: n in ignore <==> n in base || PickedBefore(projects, args, resolve, i, 0, n)
    {
      var j := 0;
      while j < |args|
        invariant 0 <= j <= |args|
        invariant forall n :: n in ignore <==> n in base || PickedBefore(projects, args, resolve, i, j, n)
      {
        if ProjectName(projects[i]) == args[j] || ProjectPath(projects[i]) <= resolve(args[j]) {
          ignore := ignore + {ProjectPath(projects[i])};
          assert Selects(projects[i], args[j], resolve(args[j]));
        }
        j := j + 1;
      }
      i := i + 1;
    }
    match failure {
      case Some(e) => return Err(e);
      case None =>
    }
    var names := Listed(ignore);
    cache.SetIgnoreList(names, now);
    r := Ok(());
  }
}
