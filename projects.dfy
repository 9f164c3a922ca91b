/** Repos and workspaces: the cached per-repo record, the status a repo or a workspace
    reports, and the enumeration of everything the configuration names. */
module Projects {
  import opened Common
  import opened Strings
  import opened Records
  import opened Caching
  import opened Inspect
  import opened Config

  /** The status strings "JERJERROD:UNKNOWN" ... "JERJERROD:GARBAGE". */
  datatype Status = UNKNOWN | CHANGED | UNTRACKED | UNPUSHED | CLEAN | GARBAGE

  /** The status strings "JERJERROD:...". */
  function StatusName(s: Status): (r: string)
    ensures "JERJERROD:" <= r
  {
    "JERJERROD:" + match s
      case UNKNOWN => "UNKNOWN"
      case CHANGED => "CHANGED"
      case UNTRACKED => "UNTRACKED"
      case UNPUSHED => "UNPUSHED"
      case CLEAN => "CLEAN"
      case GARBAGE => "GARBAGE"
  }

  /** Distinct statuses have distinct names. */
  lemma StatusNameInjective(a: Status, b: Status)
    requires StatusName(a) == StatusName(b)
    ensures a == b
  {
    assert StatusName(a)[10..] == StatusName(b)[10..];
  }

  /** The key the outgoing flag of the repo at `path` is cached under. */
  function OutgoingKey(path: string): string { path + "...outgoing" }

  /** A cache read meant to give a repo record. */
  function AsInfo(read: Result<Option<CacheValue>>): (r: Result<Option<RepoInfo>>)
    ensures read == Ok(None) ==> r == Ok(None)
    ensures read.Ok? && read.value.Some? && r.Ok? ==> r.value.Some?
    ensures r.Ok? && r.value.Some? ==> read == Ok(Some(InfoValue(r.value.value)))
  {
    match read
    case Err(e) => Err(e)
    case Ok(None) => Ok(None)
    case Ok(Some(InfoValue(i))) => Ok(Some(i))
    case Ok(Some(OutgoingValue(_))) => Err(MalformedRecord)
  }

  /** A cache read meant to give an outgoing flag. */
  function AsOutgoing(read: Result<Option<CacheValue>>): (r: Result<Option<Outgoing>>)
    ensures read == Ok(None) ==> r == Ok(None)
    ensures r.Ok? && r.value.Some? ==> read == Ok(Some(OutgoingValue(r.value.value)))
  {
    match read
    case Err(e) => Err(e)
    case Ok(None) => Ok(None)
    case Ok(Some(OutgoingValue(o))) => Ok(Some(o))
    case Ok(Some(InfoValue(_))) => Err(MalformedRecord)
  }

  /** Lines 241-244 of `_getinfo`: a live "?" is replaced by the stale record's flag when
      there is a stale record, and is then not written; any other live flag is kept and
      written to the outgoing key. */
  function KeepOutgoing(live: Outgoing, stale: Option<RepoInfo>): (r: (Outgoing, bool))
    ensures r.1 <==> live != Unknown || stale.None?
    ensures r.0 == (if r.1 then live else stale.value.outgoing)
  {
    if live == Unknown && stale.Some? then (stale.value.outgoing, false) else (live, true)
  }

  /** `Repo.getstatus` on the record `_getinfo` gave: first match wins. */
  function StatusOf(info: Option<RepoInfo>): (s: Status)
    ensures s != GARBAGE
    ensures s == UNKNOWN <==> info.None?
    ensures s == CHANGED <==> info.Some? && (info.value.changed != [] || info.value.stashes != 0)
    ensures s == UNTRACKED <==>
      info.Some? && info.value.changed == [] && info.value.stashes == 0 && info.value.untracked != []
    ensures s == UNPUSHED <==>
      info.Some? && info.value.changed == [] && info.value.stashes == 0 && info.value.untracked == []
      && info.value.outgoing.Truthy()
  {
    match info
    case None => UNKNOWN
    case Some(i) =>
      if i.changed != [] || i.stashes != 0 then CHANGED
      else if i.untracked != [] then UNTRACKED
      else if i.outgoing.Truthy() then UNPUSHED
      else CLEAN
  }

  /** A record is CLEAN exactly when nothing is changed, stashed, untracked or outgoing:
      "?" (remote timed out) and "-" (remote unreachable) both count as unpushed. */
  lemma {:induction false} CleanMeansNothingPending(info: RepoInfo)
    ensures StatusOf(Some(info)) == CLEAN <==>
      info.changed == [] && info.stashes == 0 && info.untracked == [] && !info.outgoing.Truthy()
    ensures (info.changed == [] && info.stashes == 0 && info.untracked == []
      && (info.outgoing == Unknown || info.outgoing == Unreachable)) ==> StatusOf(Some(info)) == UNPUSHED
  {
    assert Unknown.Truthy() && Unreachable.Truthy();
  }

  /** What the inspector may answer to `getoutgoing`. */
  predicate LiveOutgoing(vcs: Vcs, out: Outputs, live: Outgoing) {
    && (vcs == Hg ==> HgOutgoing(out.hgOutgoing) == Ok(live))
    && (vcs == Git ==> GitOutgoingAllows(out.branches, out.contains, Ok(live)))
  }

  /** `getbranch` answers: always for git, for mercurial when `hg branch` prints something. */
  predicate BranchAnswers(vcs: Vcs, out: Outputs) {
    vcs == Git || Strip(out.hgBranch) != []
  }

  /** The lists `statuslines` gives: the memoised ones, else a fresh parse of the status output. */
  function StatusFrom(memo: Option<StatusLists>, vcs: Vcs, out: Outputs): Result<StatusLists> {
    if memo.Some? then Ok(memo.value) else ParseStatus(vcs, CmdToLines(out.status))
  }

  /** A fresh outgoing entry that holds a record instead of a flag. */
  predicate HoldsRecord(read: Result<Option<CacheValue>>) {
    read.Ok? && read.value.Some? && read.value.value.InfoValue?
  }

  /** Outputs on which `getoutgoing` may raise: a failed `hg outgoing`; for git an unparsable
      branch listing, or a probed revision whose `--contains` output is malformed. */
  predicate OutgoingCanFail(vcs: Vcs, out: Outputs) {
    if vcs == Hg then HgOutgoing(out.hgOutgoing).Err?
    else
      var scan := ScanBranches(Tag(CmdToLines(out.branches)));
      scan.Err? || exists rev :: rev in scan.value.known - scan.value.found && Probe(CmdToLines(out.contains(rev))).Err?
  }

  /** The outgoing key holds a ':' exactly when the repo path does. */
  lemma OutgoingKeyColon(path: string)
    ensures ':' in OutgoingKey(path) <==> ':' in path
  {
    assert ':' !in "...outgoing";
  }

  /** The outgoing step of `_getinfo`, a read of the outgoing key and perhaps a write of
      it, leaves a missing repo record missing. */
  lemma OutgoingStepKeepsMiss(files: map<string, Entry>, path: string, o: Outgoing, now: real)
    requires Get(files, path, ProjectExpiry, now).result == Ok(None)
    ensures var after := Get(files, OutgoingKey(path), OutgoingExpiry, now).files;
      && Get(after, path, ProjectExpiry, now).result == Ok(None)
      && (Put(after, OutgoingKey(path), OutgoingValue(o), now).Ok? ==>
            Get(Put(after, OutgoingKey(path), OutgoingValue(o), now).value, path, ProjectExpiry, now).result == Ok(None))
  {
    var after := Get(files, OutgoingKey(path), OutgoingExpiry, now).files;
    var name := CachePath(path).value;
    assert name in after ==> name in files && after[name] == files[name];
    if Put(after, OutgoingKey(path), OutgoingValue(o), now).Ok? {
      assert path != OutgoingKey(path) by { assert |OutgoingKey(path)| > |path|; }
      SetOtherKey(after, OutgoingKey(path), OutgoingValue(o), now, path, ProjectExpiry, now);
    }
  }

  /** Writing the record under the repo path keeps a just-written outgoing flag readable. */
  lemma RecordBesideOutgoing(before: map<string, Entry>, after: map<string, Entry>, path: string,
                             o: Outgoing, v: CacheValue, now: real)
    requires Put(before, OutgoingKey(path), OutgoingValue(o), now) == Ok(after)
    requires Put(after, path, v, now).Ok?
    ensures Get(Put(after, path, v, now).value, OutgoingKey(path), OutgoingExpiry, now).result
         == Ok(Some(OutgoingValue(o)))
  {
    assert path != OutgoingKey(path) by { assert |OutgoingKey(path)| > |path|; }
    SetOtherKey(after, path, v, now, OutgoingKey(path), OutgoingExpiry, now);
    SetThenGet(before, OutgoingKey(path), OutgoingValue(o), now, OutgoingExpiry, now);
  }

  class Repo {
    const name: string
    const path: string
    const insp: Inspector
    /** `_info`: the record, once `_getinfo` has produced one. */
    var info: Option<RepoInfo>

    constructor (name: string, path: string, insp: Inspector)
      ensures this.name == name && this.path == path && this.insp == insp && info == None
    {
      this.name := name;
      this.path := path;
      this.insp := insp;
      info := None;
    }

    /** Lines 237-244 of `_getinfo`: the outgoing flag, from its own cache entry when the
        inspector's check is expensive and the entry is fresh, else from the inspector (and
        then written back unless a live "?" was replaced by the stale record's flag). The
        ghost `live` is the inspector's answer when it was asked. */
    method OutgoingFor(cache: DiskCache, now: real, out: Outputs, staleRecord: Option<RepoInfo>)
      returns (r: Result<Outgoing>, ghost live: Outgoing)
      modifies cache, insp
      ensures cache.ignoreRecord == old(cache.ignoreRecord) && insp.statusMemo == old(insp.statusMemo)
      ensures var read := Get(old(cache.files), OutgoingKey(path), OutgoingExpiry, now);
        var asked := !insp.OutgoingExpensive() || read.result == Ok(None);
        r.Ok? ==>
          && read.result.Ok?
          && insp.calls == old(insp.calls) + (if asked then [OutgoingQuery] else [])
          && (!asked ==> read.result == Ok(Some(OutgoingValue(r.value))) && cache.files == read.files)
          && (asked ==> LiveOutgoing(insp.vcs, out, live) && r.value == KeepOutgoing(live, staleRecord).0)
          && (asked && KeepOutgoing(live, staleRecord).1 ==>
                cache.files == Put(read.files, OutgoingKey(path), OutgoingValue(r.value), now).value)
          && (asked && !KeepOutgoing(live, staleRecord).1 ==> cache.files == read.files)
      // the failures, in the order they are met
      ensures ':' in path ==> r.Err?
      ensures var read := Get(old(cache.files), OutgoingKey(path), OutgoingExpiry, now).result;
        var asked := !insp.OutgoingExpensive() || read == Ok(None);
        && (':' !in path && insp.OutgoingExpensive() && HoldsRecord(read) ==> r == Err(MalformedRecord))
        && (':' !in path && asked && insp.vcs == Hg && HgOutgoing(out.hgOutgoing).Err? ==>
              r == Err(HgOutgoing(out.hgOutgoing).error))
        && (':' !in path && asked && insp.vcs == Git && ScanBranches(Tag(CmdToLines(out.branches))).Err? ==>
              r == Err(ScanBranches(Tag(CmdToLines(out.branches))).error))
        && (r.Err? ==> ':' in path || (insp.OutgoingExpensive() && HoldsRecord(read))
                       || (asked && OutgoingCanFail(insp.vcs, out)))
    {
      OutgoingKeyColon(path);
      live := Zero;
      var read := cache.GetCache(OutgoingKey(path), OutgoingExpiry, now);
      match read {
        case Err(e) => return Err(e), live;
        case Ok(c) =>
          if c.Some? && insp.OutgoingExpensive() {
            match c.value {
              case OutgoingValue(o) => return Ok(o), live;
              case InfoValue(_) => return Err(MalformedRecord), live;
            }
          }
      }
      var answer := insp.Outgoing(out);
      if answer.Err? {
        return Err(answer.error), live;
      }
      live := answer.value;
      var keep := KeepOutgoing(answer.value, staleRecord);
      if keep.1 {
        var w := cache.SetCache(OutgoingKey(path), OutgoingValue(keep.0), now);
        match w {
          case Err(e) => return Err(e), live;
          case Ok(_) =>
        }
      }
      r := Ok(keep.0);
    }

    /** `_getinfo(caninspect)`: the memoised record; else a fresh cached record; else, when
        inspecting is allowed, a record assembled from the inspector and written back. The
        "old value" read between the two always misses: the fresh read that just missed
        either found nothing or deleted the expired file. So with inspection disallowed
        the answer is always "no record", and a live "?" is always written as it is. */
    method GetInfo(canInspect: bool, cache: DiskCache, now: real, out: Outputs) returns (r: Result<Option<RepoInfo>>)
      modifies this, cache, insp
      ensures cache.ignoreRecord == old(cache.ignoreRecord)
      ensures r.Ok? ==> info == r.value
      ensures canInspect && r.Ok? ==> r.value.Some?
      // memoised
      ensures old(info).Some? ==>
        r == Ok(old(info)) && info == old(info) && cache.files == old(cache.files) && insp.calls == old(insp.calls)
      // a fresh cached record: no inspector call, no write
      ensures old(info).None? && Get(old(cache.files), path, ProjectExpiry, now).result != Ok(None) ==>
        r == AsInfo(Get(old(cache.files), path, ProjectExpiry, now).result)
        && cache.files == old(cache.files) && insp.calls == old(insp.calls)
        && info == (if r.Ok? then r.value else None)
      // no fresh record and no inspecting: nothing, only the eviction
      ensures old(info).None? && Get(old(cache.files), path, ProjectExpiry, now).result == Ok(None) && !canInspect ==>
        r == Ok(None) && info == None && insp.calls == old(insp.calls)
        && cache.files == Get(old(cache.files), path, ProjectExpiry, now).files
      // an inspected record
      ensures old(info).None? && Get(old(cache.files), path, ProjectExpiry, now).result == Ok(None) && canInspect && r.Ok? ==>
        var evicted := Get(old(cache.files), path, ProjectExpiry, now).files;
        var cached := Get(evicted, OutgoingKey(path), OutgoingExpiry, now).result;
        var asked := !insp.OutgoingExpensive() || cached == Ok(None);
        && r.value.Some? && info == r.value
        && insp.calls == old(insp.calls) + [BranchQuery, ChangedQuery, UntrackedQuery]
                         + (if asked then [OutgoingQuery] else []) + [StashQuery]
        && (!asked ==> cached == Ok(Some(OutgoingValue(r.value.value.outgoing))))
        && (asked ==> LiveOutgoing(insp.vcs, out, r.value.value.outgoing))
        && r.value.value.stashes == StashCount(out.stashList)
        && (insp.vcs == Git ==> r.value.value.branch == out.activeBranch && r.value.value.untracked == out.gitUntracked)
        && (asked ==> Get(cache.files, OutgoingKey(path), OutgoingExpiry, now).result == Ok(Some(OutgoingValue(r.value.value.outgoing))))
        && Get(cache.files, path, ProjectExpiry, now).result == Ok(Some(InfoValue(r.value.value)))
      // its status lists and mercurial branch
      ensures old(info).None? && Get(old(cache.files), path, ProjectExpiry, now).result == Ok(None) && canInspect && r.Ok? ==>
        var s := StatusFrom(old(insp.statusMemo), insp.vcs, out);
        && BranchAnswers(insp.vcs, out) && s.Ok?
        && r.value.value.changed == s.value.changed
        && (insp.vcs == Hg ==>
              r.value.value.branch == Some(Strip(out.hgBranch)) && r.value.value.untracked == s.value.untracked)
      // a failed `hg branch` or an unexpected status line: an error, and no record is kept or cached
      ensures old(info).None? && Get(old(cache.files), path, ProjectExpiry, now).result == Ok(None) && canInspect ==>
        (!BranchAnswers(insp.vcs, out) || StatusFrom(old(insp.statusMemo), insp.vcs, out).Err?) ==>
        r.Err? && info == None && Get(cache.files, path, ProjectExpiry, now).result == Ok(None)
      // no other failure but the outgoing query's
      ensures old(info).None? && Get(old(cache.files), path, ProjectExpiry, now).result == Ok(None) && canInspect && r.Err? ==>
        var evicted := Get(old(cache.files), path, ProjectExpiry, now).files;
        var read := Get(evicted, OutgoingKey(path), OutgoingExpiry, now).result;
        var asked := !insp.OutgoingExpensive() || read == Ok(None);
        || !BranchAnswers(insp.vcs, out) || StatusFrom(old(insp.statusMemo), insp.vcs, out).Err?
        || (insp.OutgoingExpensive() && HoldsRecord(read)) || (asked && OutgoingCanFail(insp.vcs, out))
    {
      if info.Some? {
        return Ok(info);
      }
      var hit := cache.GetCache(path, ProjectExpiry, now);
      if hit != Ok(None) {
        r := AsInfo(hit);
        info := if r.Ok? then r.value else None;
        return;
      }
      // the "old value"
      var stale := cache.GetCache(path, StaleExpiry, now);
      MissIsPermanent(old(cache.files), path, ProjectExpiry, now, StaleExpiry, now);
      var staleInfo := AsInfo(stale);
      if !canInspect {
        return staleInfo;
      }
      var staleRecord: Option<RepoInfo> := None;
      match staleInfo {
        case Err(e) => return Err(e);
        case Ok(v) => staleRecord := v;
      }
      var record, live := Assemble(cache, now, out, staleRecord);
      match record {
        case Err(e) => return Err(e);
        case Ok(v) =>
          info := Some(v);
          r := Ok(Some(v));
      }
    }

    /** Lines 231-248 of `_getinfo`: the record assembled from the inspector, in the order
        branch, changed, untracked, outgoing, stashes, then written under the repo path. */
    method Assemble(cache: DiskCache, now: real, out: Outputs, staleRecord: Option<RepoInfo>)
      returns (r: Result<RepoInfo>, ghost live: Outgoing)
      modifies cache, insp
      ensures cache.ignoreRecord == old(cache.ignoreRecord)
      ensures r.Ok? ==>
        var cached := Get(old(cache.files), OutgoingKey(path), OutgoingExpiry, now).result;
        var asked := !insp.OutgoingExpensive() || cached == Ok(None);
        && insp.calls == old(insp.calls) + [BranchQuery, ChangedQuery, UntrackedQuery]
                         + (if asked then [OutgoingQuery] else []) + [StashQuery]
        && (!asked ==> cached == Ok(Some(OutgoingValue(r.value.outgoing))))
        && (asked ==> LiveOutgoing(insp.vcs, out, live) && r.value.outgoing == KeepOutgoing(live, staleRecord).0)
        && r.value.stashes == StashCount(out.stashList)
        && (insp.vcs == Git ==> r.value.branch == out.activeBranch && r.value.untracked == out.gitUntracked)
        && (asked && KeepOutgoing(live, staleRecord).1 ==>
              Get(cache.files, OutgoingKey(path), OutgoingExpiry, now).result == Ok(Some(OutgoingValue(r.value.outgoing))))
        && Get(cache.files, path, ProjectExpiry, now).result == Ok(Some(InfoValue(r.value)))
      // the status lists and the mercurial branch
      ensures r.Ok? ==>
        var s := StatusFrom(old(insp.statusMemo), insp.vcs, out);
        && BranchAnswers(insp.vcs, out) && s.Ok?
        && r.value.changed == s.value.changed
        && (insp.vcs == Hg ==> r.value.branch == Some(Strip(out.hgBranch)) && r.value.untracked == s.value.untracked)
      // the failures, in the order they are met; the first two write nothing
      ensures !BranchAnswers(insp.vcs, out) ==>
        r == Err(AssertionFailed("len(output)")) && cache.files == old(cache.files)
      ensures BranchAnswers(insp.vcs, out) && StatusFrom(old(insp.statusMemo), insp.vcs, out).Err? ==>
        r == Err(StatusFrom(old(insp.statusMemo), insp.vcs, out).error)
        && cache.files == old(cache.files) && insp.statusMemo == None
      ensures BranchAnswers(insp.vcs, out) && StatusFrom(old(insp.statusMemo), insp.vcs, out).Ok? ==>
        var read := Get(old(cache.files), OutgoingKey(path), OutgoingExpiry, now).result;
        var asked := !insp.OutgoingExpensive() || read == Ok(None);
        && (':' in path ==> r.Err?)
        && (':' !in path && insp.OutgoingExpensive() && HoldsRecord(read) ==> r == Err(MalformedRecord))
        && (':' !in path && asked && insp.vcs == Hg && HgOutgoing(out.hgOutgoing).Err? ==>
              r == Err(HgOutgoing(out.hgOutgoing).error))
        && (':' !in path && asked && insp.vcs == Git && ScanBranches(Tag(CmdToLines(out.branches))).Err? ==>
              r == Err(ScanBranches(Tag(CmdToLines(out.branches))).error))
      ensures r.Err? ==>
        var read := Get(old(cache.files), OutgoingKey(path), OutgoingExpiry, now).result;
        var asked := !insp.OutgoingExpensive() || read == Ok(None);
        || !BranchAnswers(insp.vcs, out) || StatusFrom(old(insp.statusMemo), insp.vcs, out).Err?
        || ':' in path || (insp.OutgoingExpensive() && HoldsRecord(read)) || (asked && OutgoingCanFail(insp.vcs, out))
    {
      live := Zero;
      var local := AskLocal(out);
      if local.Err? {
        return Err(local.error), live;
      }
      var (branch, changed, untracked) := local.value;
      ghost var beforeOutgoing := cache.files;
      var outgoing;
      outgoing, live := OutgoingFor(cache, now, out, staleRecord);
      if outgoing.Err? {
        return Err(outgoing.error), live;
      }
      ghost var afterOutgoing := cache.files;
      var stashes := insp.Stashes(out);
      var record := RepoInfo(branch, changed, untracked, outgoing.value, stashes);
      var w := cache.SetCache(path, InfoValue(record), now);
      match w {
        case Err(e) => return Err(e), live;
        case Ok(_) =>
      }
      SetThenGet(afterOutgoing, path, InfoValue(record), now, ProjectExpiry, now);
      if !insp.OutgoingExpensive() || Get(beforeOutgoing, OutgoingKey(path), OutgoingExpiry, now).result == Ok(None) {
        if KeepOutgoing(live, staleRecord).1 {
          RecordBesideOutgoing(Get(beforeOutgoing, OutgoingKey(path), OutgoingExpiry, now).files, afterOutgoing,
                               path, outgoing.value, InfoValue(record), now);
        }
      }
      r := Ok(record);
    }

    /** Lines 231-248 of `_getinfo` as the program runs them. `hg branch` is read with
        `check_output`, which gives bytes, and the stripped bytes go into the record, so for
        a mercurial repo the `json.dumps` of `setcache` refuses the record at line 248: by
        then the outgoing flag has been written, but the record is neither written nor
        kept. A git repo goes as in `Assemble`, which is the record as intended. */
    method AssembleAsWritten(cache: DiskCache, now: real, out: Outputs, staleRecord: Option<RepoInfo>)
      returns (r: Result<RepoInfo>, ghost live: Outgoing)
      modifies cache, insp
      ensures cache.ignoreRecord == old(cache.ignoreRecord)
      ensures insp.vcs == Git && r.Ok? ==> Get(cache.files, path, ProjectExpiry, now).result == Ok(Some(InfoValue(r.value)))
      // a mercurial repo never gets its record
      ensures insp.vcs == Hg ==> r.Err?
      // and it fails only once everything but the write has gone through
      ensures insp.vcs == Hg && BranchAnswers(insp.vcs, out) && StatusFrom(old(insp.statusMemo), insp.vcs, out).Ok? ==>
        var read := Get(old(cache.files), OutgoingKey(path), OutgoingExpiry, now).result;
        var asked := read == Ok(None);
        ':' !in path && !HoldsRecord(read) && !(asked && HgOutgoing(out.hgOutgoing).Err?) ==>
          && r == Err(NotSerialisable("bytes"))
          && insp.calls == old(insp.calls) + [BranchQuery, ChangedQuery, UntrackedQuery]
                           + (if asked then [OutgoingQuery] else []) + [StashQuery]
          && (asked && KeepOutgoing(live, staleRecord).1 ==>
                Get(cache.files, OutgoingKey(path), OutgoingExpiry, now).result
                == Ok(Some(OutgoingValue(KeepOutgoing(live, staleRecord).0))))
          && (Get(old(cache.files), path, ProjectExpiry, now).result == Ok(None) ==>
                Get(cache.files, path, ProjectExpiry, now).result == Ok(None))
    {
      if insp.vcs == Git {
        r, live := Assemble(cache, now, out, staleRecord);
        return;
      }
      live := Zero;
      var local := AskLocal(out);
      if local.Err? {
        return Err(local.error), live;
      }
      ghost var before := cache.files;
      var outgoing;
      outgoing, live := OutgoingFor(cache, now, out, staleRecord);
      if outgoing.Err? {
        return Err(outgoing.error), live;
      }
      var stashes := insp.Stashes(out);
      if Get(before, path, ProjectExpiry, now).result == Ok(None) {
        OutgoingStepKeepsMiss(before, path, outgoing.value, now);
      }
      if Get(before, OutgoingKey(path), OutgoingExpiry, now).result == Ok(None) && KeepOutgoing(live, staleRecord).1 {
        SetThenGet(Get(before, OutgoingKey(path), OutgoingExpiry, now).files, OutgoingKey(path),
                   OutgoingValue(outgoing.value), now, OutgoingExpiry, now);
      }
      r := Err(NotSerialisable("bytes"));
    }

    /** Lines 231-234 of `_getinfo`: the branch, the changed files and the untracked files,
        asked in that order; the first failure stops it. */
    method AskLocal(out: Outputs) returns (r: Result<(Option<string>, seq<string>, seq<string>)>)
      modifies insp
      ensures r.Ok? ==> insp.calls == old(insp.calls) + [BranchQuery, ChangedQuery, UntrackedQuery]
      ensures r.Ok? <==> BranchAnswers(insp.vcs, out) && StatusFrom(old(insp.statusMemo), insp.vcs, out).Ok?
      ensures !BranchAnswers(insp.vcs, out) ==> r == Err(AssertionFailed("len(output)"))
      ensures BranchAnswers(insp.vcs, out) && StatusFrom(old(insp.statusMemo), insp.vcs, out).Err? ==>
        r == Err(StatusFrom(old(insp.statusMemo), insp.vcs, out).error) && insp.statusMemo == None
      ensures r.Ok? ==>
        var s := StatusFrom(old(insp.statusMemo), insp.vcs, out).value;
        && r.value.1 == s.changed
        && (insp.vcs == Git ==> r.value.0 == out.activeBranch && r.value.2 == out.gitUntracked)
        && (insp.vcs == Hg ==> r.value.0 == Some(Strip(out.hgBranch)) && r.value.2 == s.untracked)
    {
      var branch := insp.Branch(out);
      if branch.Err? {
        return Err(branch.error);
      }
      var changed := insp.Changed(out);
      if changed.Err? {
        return Err(changed.error);
      }
      // the mercurial status was parsed by `getchanged` just above, so this cannot fail
      var untracked := insp.Untracked(out);
      match untracked {
        case Err(e) => return Err(e);
        case Ok(_) =>
      }
      r := Ok((branch.value, changed.value, untracked.value));
    }

    /** `getstatus(caninspect)` */
    method GetStatus(canInspect: bool, cache: DiskCache, now: real, out: Outputs) returns (r: Result<Status>)
      modifies this, cache, insp
      ensures old(info).Some? ==> r == Ok(StatusOf(old(info))) && cache.files == old(cache.files)
      ensures old(info).None? && Get(old(cache.files), path, ProjectExpiry, now).result == Ok(None) && !canInspect ==>
        r == Ok(UNKNOWN) && insp.calls == old(insp.calls)
      ensures r.Ok? ==> r.value != GARBAGE && (r.value == UNKNOWN <==> info.None?)
      ensures r.Ok? ==> r.value == StatusOf(info)
    {
      var i := GetInfo(canInspect, cache, now, out);
      match i {
        case Err(e) => return Err(e);
        case Ok(v) => return Ok(StatusOf(v));
      }
    }

    /** `containspath`, given the resolved form of the path asked about: a plain prefix
        test, so it does not respect path components. */
    function ContainsPath(resolved: string): (b: bool)
      ensures b ==> |path| <= |resolved|
      ensures b <==> exists rest :: resolved == path + rest
    {
      assert path <= resolved ==> resolved == path + resolved[|path|..];
      path <= resolved
    }
  }

  /** What `_getinfo(True)` leaves behind, `ok` telling whether it returned a record: the
      memoised record as it was; else a fresh cached record, read and kept without asking
      the inspector; else a record assembled from the inspector's outputs and written back
      under the repo path. A failed `hg branch` or an unexpected status line leaves no
      record kept or cached; nothing else but the outgoing query can fail it. */
  twostate predicate Fetched(repo: Repo, cache: DiskCache, now: real, out: Outputs, ok: bool)
    reads repo, repo.insp, cache
  {
    var hit := Get(old(cache.files), repo.path, ProjectExpiry, now).result;
    var s := StatusFrom(old(repo.insp.statusMemo), repo.insp.vcs, out);
    && cache.ignoreRecord == old(cache.ignoreRecord)
    && (ok ==> repo.info.Some?)
    // memoised
    && (old(repo.info).Some? ==>
          ok && repo.info == old(repo.info) && cache.files == old(cache.files) && repo.insp.calls == old(repo.insp.calls))
    // a fresh cached record
    && (old(repo.info).None? && hit != Ok(None) ==>
          && (ok <==> AsInfo(hit).Ok?) && (ok ==> AsInfo(hit) == Ok(repo.info))
          && cache.files == old(cache.files) && repo.insp.calls == old(repo.insp.calls))
    // an inspected record
    && (old(repo.info).None? && hit == Ok(None) && ok ==>
          && Get(cache.files, repo.path, ProjectExpiry, now).result == Ok(Some(InfoValue(repo.info.value)))
          && BranchAnswers(repo.insp.vcs, out) && s.Ok?
          && repo.info.value.changed == s.value.changed
          && repo.info.value.stashes == StashCount(out.stashList)
          && (repo.insp.vcs == Git ==>
                repo.info.value.branch == out.activeBranch && repo.info.value.untracked == out.gitUntracked)
          && (repo.insp.vcs == Hg ==>
                repo.info.value.branch == Some(Strip(out.hgBranch)) && repo.info.value.untracked == s.value.untracked))
    && (old(repo.info).None? && hit == Ok(None) && (!BranchAnswers(repo.insp.vcs, out) || s.Err?) ==>
          !ok && repo.info == None && Get(cache.files, repo.path, ProjectExpiry, now).result == Ok(None))
    && (old(repo.info).None? && hit == Ok(None) && !ok ==>
          var evicted := Get(old(cache.files), repo.path, ProjectExpiry, now).files;
          var read := Get(evicted, OutgoingKey(repo.path), OutgoingExpiry, now).result;
          var asked := !repo.insp.OutgoingExpensive() || read == Ok(None);
          || !BranchAnswers(repo.insp.vcs, out) || s.Err?
          || (repo.insp.OutgoingExpensive() && HoldsRecord(read)) || (asked && OutgoingCanFail(repo.insp.vcs, out)))
  }

  // ---------------------------------------------------------------------------------
  // Workspaces

  /** One entry of `os.listdir` of a workspace, with whether it holds a `.git` and a `.hg`
      directory. */
  datatype Listing = Listing(name: string, hasGit: bool, hasHg: bool)

  /** `os.path.join(a, b)` for a relative b. */
  function PathJoin(a: string, b: string): (r: string)
    ensures a == [] || EndsWith(a, "/") ==> r == a + b
    ensures a != [] && !EndsWith(a, "/") ==> r == a + "/" + b
  {
    if a == [] || EndsWith(a, "/") then a + b else a + "/" + b
  }

  /** The last component of a joined path is the name joined on. */
  lemma PathJoinBasename(a: string, b: string)
    requires b != [] && '/' !in b
    ensures Basename(PathJoin(a, b)) == b
  {
    var r := PathJoin(a, b);
    assert r[|r| - |b|..] == b;
    if a != [] {
      assert r[|r| - |b| - 1] == '/';
    }
  }

  /** The inspector kind `_scan` picks: `.git` is tried before `.hg`. */
  function VcsOf(l: Listing): Option<Vcs>
  {
    if l.hasGit then Some(Git) else if l.hasHg then Some(Hg) else None
  }

  /** The entries that become repos, in listing order. */
  function RepoEntries(listing: seq<Listing>): (r: seq<Listing>)
    ensures forall l :: l in r <==> l in listing && VcsOf(l).Some?
  {
    if listing == [] then []
    else
      var rest := RepoEntries(listing[..|listing| - 1]);
      var l := listing[|listing| - 1];
      if VcsOf(l).Some? then rest + [l] else rest
  }

  /** The names that are reported as garbage, in listing order. */
  function GarbageNames(listing: seq<Listing>, ignore: seq<string>): (r: seq<string>)
    ensures forall n :: n in r ==> n !in ignore
  {
    if listing == [] then []
    else
      var rest := GarbageNames(listing[..|listing| - 1], ignore);
      var l := listing[|listing| - 1];
      if VcsOf(l).None? && l.name !in ignore then rest + [l.name] else rest
  }

  /** Every entry lands in exactly one place: a repo when it holds `.git` or `.hg`, garbage
      when it holds neither and is not ignored, nowhere otherwise. */
  lemma {:induction false} ScanPartition(listing: seq<Listing>, ignore: seq<string>, l: Listing)
    requires l in listing
    ensures l in RepoEntries(listing) <==> VcsOf(l).Some?
    ensures VcsOf(l).None? ==> (l.name in GarbageNames(listing, ignore) <==> l.name !in ignore)
    decreases |listing|
  {
    var n := |listing| - 1;
    if l != listing[n] {
      assert l in listing[..n];
      ScanPartition(listing[..n], ignore, l);
    }
  }

  /** `Workspace.getstatus` on its repos' statuses: the first of UNKNOWN, CHANGED,
      UNTRACKED, UNPUSHED present, else GARBAGE when there is garbage, else CLEAN. */
  function Aggregate(statuses: seq<Status>, hasGarbage: bool): (r: Status)
    ensures r in statuses || r == GARBAGE || r == CLEAN
    ensures r == GARBAGE ==> hasGarbage
    ensures r == CLEAN ==> !hasGarbage && forall k :: 0 <= k < |statuses| ==> statuses[k] == CLEAN || statuses[k] == GARBAGE
  {
    if UNKNOWN in statuses then UNKNOWN
    else if CHANGED in statuses then CHANGED
    else if UNTRACKED in statuses then UNTRACKED
    else if UNPUSHED in statuses then UNPUSHED
    else if hasGarbage then GARBAGE
    else
      assert forall k :: 0 <= k < |statuses| ==> statuses[k] in statuses && !(statuses[k].UNKNOWN? || statuses[k].CHANGED? || statuses[k].UNTRACKED? || statuses[k].UNPUSHED?);
      CLEAN
  }

  /** How bad a status is. */
  function Rank(s: Status): nat
  {
    match s
    case UNKNOWN => 5
    case CHANGED => 4
    case UNTRACKED => 3
    case UNPUSHED => 2
    case GARBAGE => 1
    case CLEAN => 0
  }

  /** The workspace reports its worst child: the result is a child's status, GARBAGE or
      CLEAN, and no child (nor the garbage) is worse. */
  lemma {:induction false} AggregateIsWorst(statuses: seq<Status>, hasGarbage: bool)
    requires GARBAGE !in statuses
    ensures var a := Aggregate(statuses, hasGarbage);
      && (a in statuses || (a == GARBAGE && hasGarbage) || a == CLEAN)
      && (forall i :: 0 <= i < |statuses| ==> Rank(statuses[i]) <= Rank(a))
      && (hasGarbage ==> Rank(GARBAGE) <= Rank(a))
  {
    var a := Aggregate(statuses, hasGarbage);
    forall i | 0 <= i < |statuses|
      ensures Rank(statuses[i]) <= Rank(a)
    {
      var s := statuses[i];
      assert s in statuses;
    }
  }

  /** Only which statuses occur matters, not their order or how often. */
  lemma AggregateOrderFree(a: seq<Status>, b: seq<Status>, hasGarbage: bool)
    requires forall s :: s in a <==> s in b
    ensures Aggregate(a, hasGarbage) == Aggregate(b, hasGarbage)
  {
  }

  /** repo is the repo `_scan` makes for entry l of the workspace at wsPath: named after
      the entry, at the joined path, with the inspector its markers choose and nothing
      cached yet. */
  predicate ScannedRepo(repo: Repo, wsPath: string, l: Listing)
    reads repo, repo.insp
  {
    && repo.name == l.name && repo.path == PathJoin(wsPath, l.name)
    && Some(repo.insp.vcs) == VcsOf(l) && repo.insp.path == repo.path
    && repo.info == None && repo.insp.statusMemo == None
  }

  class Workspace {
    const name: string
    const path: string
    const ignore: seq<string>
    /** `_repos` */
    var repos: seq<Repo>
    /** `_garbage` */
    var garbage: seq<string>

    /** Each repo object is held once: `_scan` makes a new one per entry. */
    predicate Distinct()
      reads this
    {
      forall j, k :: 0 <= j < k < |repos| ==> repos[j] != repos[k]
    }

    /** `__init__` followed by `_scan` over the directory listing. */
    constructor (name: string, path: string, ignore: seq<string>, listing: seq<Listing>)
      ensures this.name == name && this.path == path && this.ignore == ignore && Distinct()
      ensures |repos| == |RepoEntries(listing)|
      ensures forall i :: 0 <= i < |repos| ==> ScannedRepo(repos[i], path, RepoEntries(listing)[i])
      ensures garbage == GarbageNames(listing, ignore)
      ensures forall i :: 0 <= i < |repos| ==> fresh(repos[i]) && fresh(repos[i].insp)
    {
      this.name := name;
      this.path := path;
      this.ignore := ignore;
      repos := [];
      garbage := [];
      new;
      ghost var before := |repos|;
      Scan(listing);
      assert before == 0;
      forall i | 0 <= i < |repos|
        ensures ScannedRepo(repos[i], path, RepoEntries(listing)[i])
      {
        assert i - before == i;
      }
    }

    /** `_scan` over the directory listing: each entry holding `.git` or `.hg` appends a
        fresh repo, any other entry that is not ignored appends its name to the garbage. */
    method Scan(listing: seq<Listing>)
      modifies this
      requires Distinct()
      ensures Distinct()
      ensures |repos| == |old(repos)| + |RepoEntries(listing)| && repos[..|old(repos)|] == old(repos)
      ensures forall k :: |old(repos)| <= k < |repos| ==>
        fresh(repos[k]) && fresh(repos[k].insp) && ScannedRepo(repos[k], path, RepoEntries(listing)[k - |old(repos)|])
      ensures garbage == old(garbage) + GarbageNames(listing, ignore)
    {
      var rs, gs := ScanEntries(listing);
      repos := repos + rs;
      garbage := garbage + gs;
    }

    /** The loop of `_scan`: one fresh repo per entry holding `.git` or `.hg`, in listing
        order, and the names of the other entries that are not ignored. */
    method ScanEntries(listing: seq<Listing>) returns (rs: seq<Repo>, gs: seq<string>)
      ensures |rs| == |RepoEntries(listing)|
      ensures forall k :: 0 <= k < |rs| ==>
        fresh(rs[k]) && fresh(rs[k].insp) && ScannedRepo(rs[k], path, RepoEntries(listing)[k])
      ensures forall j, k :: 0 <= j < k < |rs| ==> rs[j] != rs[k]
      ensures gs == GarbageNames(listing, ignore)
    {
      rs := [];
      gs := [];
      ghost var entries: seq<Listing> := [];
      var i := 0;
      while i < |listing|
        invariant 0 <= i <= |listing|
        invariant entries == RepoEntries(listing[..i]) && |rs| == |entries|
        invariant forall k :: 0 <= k < |rs| ==>
          fresh(rs[k]) && fresh(rs[k].insp) && ScannedRepo(rs[k], path, entries[k])
        invariant gs == GarbageNames(listing[..i], ignore)
        invariant forall j, k :: 0 <= j < k < |rs| ==> rs[j] != rs[k]
      {
        var entry := listing[i];
        assert listing[..i + 1][..i] == listing[..i];
        if entry.hasGit || entry.hasHg {
          var repo := NewRepo(entry);
          rs := rs + [repo];
          entries := entries + [entry];
        } else if entry.name !in ignore {
          gs := gs + [entry.name];
        }
        i := i + 1;
      }
      assert listing[..|listing|] == listing;
    }

    /** The repo `_scan` makes for an entry holding `.git` or `.hg`: the git inspector
        when `.git` is there, else the mercurial one, at the joined path. */
    method NewRepo(entry: Listing) returns (repo: Repo)
      requires entry.hasGit || entry.hasHg
      ensures fresh(repo) && fresh(repo.insp) && ScannedRepo(repo, path, entry)
    {
      var subpath := PathJoin(path, entry.name);
      var insp := new Inspector(if entry.hasGit then Git else Hg, subpath);
      repo := new Repo(entry.name, subpath, insp);
    }

    /** `getstatus(caninspect)`: every repo is asked in order (each with the outputs of its
        own directory), then the worst status is reported. */
    method GetStatus(canInspect: bool, cache: DiskCache, now: real, world: string -> Outputs)
      returns (r: Result<Status>, ghost statuses: seq<Status>)
      modifies repos, (set repo | repo in repos :: repo.insp), cache
      requires Distinct()
      ensures repos == old(repos) && garbage == old(garbage)
      ensures r.Ok? ==> (|statuses| == |repos| && GARBAGE !in statuses
        && (forall k :: 0 <= k < |repos| ==> statuses[k] == StatusOf(repos[k].info))
        && r.value == Aggregate(statuses, garbage != []))
      ensures r.Ok? ==> forall k :: 0 <= k < |repos| ==> Rank(StatusOf(repos[k].info)) <= Rank(r.value)
    {
      var all: seq<Status> := [];
      var i := 0;
      while i < |repos|
        invariant 0 <= i <= |repos|
        invariant repos == old(repos) && garbage == old(garbage)
        invariant |all| == i && GARBAGE !in all
        invariant forall k :: 0 <= k < i ==> all[k] == StatusOf(repos[k].info)
      {
        var repo := repos[i];
        var s := repo.GetStatus(canInspect, cache, now, world(repo.path));
        match s {
          case Err(e) => return Err(e), all;
          case Ok(v) => all := all + [v];
        }
        i := i + 1;
      }
      statuses := all;
      r := Ok(Aggregate(all, garbage != []));
      AggregateIsWorst(all, garbage != []);
    }

    /** `containspath`, given the resolved form of the path asked about. */
    function ContainsPath(resolved: string): (b: bool)
      ensures b <==> exists rest :: resolved == path + rest
    {
      assert path <= resolved ==> resolved == path + resolved[|path|..];
      path <= resolved
    }
  }

  // ---------------------------------------------------------------------------------
  // Enumeration

  /** The `IGNORE=` payloads among the flags, in order. */
  function IgnoreNames(flags: seq<string>): (r: seq<string>)
    ensures |r| <= |flags|
    ensures forall n :: n in r <==> "IGNORE=" + n in flags
  {
    if flags == [] then []
    else
      var rest := IgnoreNames(flags[1..]);
      var f := flags[0];
      assert forall n :: "IGNORE=" + n in flags <==> "IGNORE=" + n == f || "IGNORE=" + n in flags[1..];
      if "IGNORE=" <= f then
        assert f == "IGNORE=" + f[7..];
        assert forall n :: "IGNORE=" + n == f <==> n == f[7..];
        [f[7..]] + rest
      else
        assert forall n :: "IGNORE=" + n != f;
        rest
  }

  /** One enumerated project. */
  datatype Project = WorkspaceProject(ws: Workspace) | RepoProject(repo: Repo)

  /** The name an enumerated project reports. */
  function ProjectName(p: Project): string
  {
    match p
    case WorkspaceProject(ws) => ws.name
    case RepoProject(repo) => repo.name
  }

  /** The path an enumerated project reports. */
  function ProjectPath(p: Project): string
  {
    match p
    case WorkspaceProject(ws) => ws.path
    case RepoProject(repo) => repo.path
  }

  /** Whether a single project is accepted: no flags, and a `.git` or `.hg` directory. */
  function SingleCheck(c: Configured, markers: string -> (bool, bool)): (r: Result<Vcs>)
    ensures r.Ok? <==> |c.flags| == 0 && (markers(c.path).0 || markers(c.path).1)
    ensures r == Ok(Hg) ==> !markers(c.path).0
    ensures r.Err? && |c.flags| == 0 ==> r.error == BadProjectPath(c.path)
  {
    if |c.flags| != 0 then Err(AssertionFailed("not len(flags)"))
    else if markers(c.path).0 then Ok(Git)
    else if markers(c.path).1 then Ok(Hg)
    else Err(BadProjectPath(c.path))
  }

  /** The index of the first single project that is refused, or |singles|. */
  function FirstBadSingle(singles: seq<Configured>, markers: string -> (bool, bool)): (k: nat)
    ensures k <= |singles|
    ensures forall i :: 0 <= i < k ==> SingleCheck(singles[i], markers).Ok?
    ensures k < |singles| ==> SingleCheck(singles[k], markers).Err?
  {
    if singles == [] then 0
    else if SingleCheck(singles[0], markers).Err? then 0
    else 1 + FirstBadSingle(singles[1..], markers)
  }

  /** The project made for configured workspace c: a workspace with c's name and path,
      ignoring the names of c's `IGNORE=` flags, with the repos and the garbage its listing
      gives. */
  predicate BuiltWorkspace(p: Project, c: Configured, listings: string -> seq<Listing>)
    reads if p.WorkspaceProject? then {p.ws} else {}
    reads if p.WorkspaceProject? then set r | r in p.ws.repos else {}
    reads if p.WorkspaceProject? then set r | r in p.ws.repos :: r.insp else {}
  {
    && p.WorkspaceProject?
    && p.ws.name == c.name && p.ws.path == c.path
    && p.ws.ignore == IgnoreNames(c.flags)
    && p.ws.garbage == GarbageNames(listings(c.path), IgnoreNames(c.flags))
    && p.ws.Distinct()
    && |p.ws.repos| == |RepoEntries(listings(c.path))|
    && forall i :: 0 <= i < |p.ws.repos| ==> ScannedRepo(p.ws.repos[i], c.path, RepoEntries(listings(c.path))[i])
  }

  /** The project made for single project c: a repo with c's name and path, the inspector
      for the VCS its markers show, and nothing cached. */
  predicate BuiltRepo(p: Project, c: Configured, markers: string -> (bool, bool))
    reads if p.RepoProject? then {p.repo} else {}
  {
    && p.RepoProject?
    && p.repo.name == c.name && p.repo.path == c.path
    && Ok(p.repo.insp.vcs) == SingleCheck(c, markers)
    && p.repo.info == None
  }

  /** The loop of `get_all_projects` that collects a workspace's ignored names. */
  method IgnoreFlags(flags: seq<string>) returns (ignore: seq<string>)
    ensures ignore == IgnoreNames(flags)
  {
    ignore := [];
    var j := 0;
    while j < |flags|
      invariant 0 <= j <= |flags|
      invariant ignore + IgnoreNames(flags[j..]) == IgnoreNames(flags)
    {
      assert flags[j..][1..] == flags[j + 1..];
      if "IGNORE=" <= flags[j] {
        ignore := ignore + [flags[j][7..]];
      }
      j := j + 1;
    }
  }

  /** `get_all_projects`, run to completion or to its first failure: workspaces first (each
      ignoring the names of its `IGNORE=` flags), in the order given, then single projects;
      a single project with flags or with neither `.git` nor `.hg` stops the enumeration
      after what was already produced. */
  method AllProjects(workspaces: seq<Configured>, singles: seq<Configured>,
                     listings: string -> seq<Listing>, markers: string -> (bool, bool))
    returns (projects: seq<Project>, failure: Option<Error>)
    ensures var k := FirstBadSingle(singles, markers);
      && |projects| == |workspaces| + k
      && (failure.None? <==> k == |singles|)
      && (failure.Some? ==> Err(failure.value) == SingleCheck(singles[k], markers))
    ensures forall i :: 0 <= i < |workspaces| ==> BuiltWorkspace(projects[i], workspaces[i], listings)
    ensures forall i :: |workspaces| <= i < |projects| ==>
      BuiltRepo(projects[i], singles[i - |workspaces|], markers)
  {
    var built := BuildWorkspaces(workspaces, listings);
    var repos;
    repos, failure := BuildSingles(singles, markers);
    projects := built + repos;
    assert forall i :: 0 <= i < |workspaces| ==> projects[i] == built[i];
    assert forall i :: |workspaces| <= i < |projects| ==> projects[i] == repos[i - |workspaces|];
  }

  /** The workspace loop of `get_all_projects`: one new workspace per declaration, in order. */
  method BuildWorkspaces(workspaces: seq<Configured>, listings: string -> seq<Listing>)
    returns (projects: seq<Project>)
    ensures |projects| == |workspaces|
    ensures forall i :: 0 <= i < |workspaces| ==> BuiltWorkspace(projects[i], workspaces[i], listings)
  {
    projects := [];
    var i := 0;
    while i < |workspaces|
      invariant 0 <= i <= |workspaces| && |projects| == i
      invariant forall j :: 0 <= j < i ==> BuiltWorkspace(projects[j], workspaces[j], listings)
    {
      var p := NewWorkspace(workspaces[i], listings);
      projects := projects + [p];
      i := i + 1;
    }
  }

  /** One pass of the workspace loop: the ignored names of the declaration's flags, then a
      new workspace scanned over its listing. */
  method NewWorkspace(c: Configured, listings: string -> seq<Listing>) returns (p: Project)
    ensures BuiltWorkspace(p, c, listings)
  {
    var ignore := IgnoreFlags(c.flags);
    var ws := new Workspace(c.name, c.path, ignore, listings(c.path));
    p := WorkspaceProject(ws);
  }

  /** The single-project loop of `get_all_projects`: one new repo per accepted declaration,
      in order, stopping at the first refused one with its error. */
  method BuildSingles(singles: seq<Configured>, markers: string -> (bool, bool))
    returns (projects: seq<Project>, failure: Option<Error>)
    ensures var k := FirstBadSingle(singles, markers);
      && |projects| == k
      && (failure.None? <==> k == |singles|)
      && (failure.Some? ==> Err(failure.value) == SingleCheck(singles[k], markers))
    ensures forall i :: 0 <= i < |projects| ==> BuiltRepo(projects[i], singles[i], markers)
  {
    projects := [];
    var k := 0;
    while k < |singles|
      invariant 0 <= k <= |singles| && |projects| == k
      invariant forall j :: 0 <= j < k ==> SingleCheck(singles[j], markers).Ok?
      invariant forall j :: 0 <= j < k ==> BuiltRepo(projects[j], singles[j], markers)
    {
      var c := singles[k];
      var check := SingleCheck(c, markers);
      match check {
        case Err(e) =>
          FirstBadSingleAt(singles, markers, k);
          return projects, Some(e);
        case Ok(vcs) =>
          var insp := new Inspector(vcs, c.path);
          var repo := new Repo(c.name, c.path, insp);
          projects := projects + [RepoProject(repo)];
      }
      k := k + 1;
    }
    FirstBadSingleAt(singles, markers, k);
    failure := None;
  }

  /** The first refused single is the first index whose check fails. */
  lemma {:induction false} FirstBadSingleAt(singles: seq<Configured>, markers: string -> (bool, bool), k: nat)
    requires k <= |singles|
    requires forall j :: 0 <= j < k ==> SingleCheck(singles[j], markers).Ok?
    requires k < |singles| ==> SingleCheck(singles[k], markers).Err?
    ensures FirstBadSingle(singles, markers) == k
    decreases k
  {
    if k > 0 {
      FirstBadSingleAt(singles[1..], markers, k - 1);
    }
  }
}
