/** The powerline segments: a background refresh of the status cache, run as a separate
    `jerjerrod namesbystatus JERJERROD:CHANGED` process and polled on each prompt, and the
    names of the projects in one status category. The module globals become the fields of
    one state object; the clock, the process's exit status and the configuration file's
    modification time are parameters. */
module Powerline {
  import opened Common
  import opened Strings
  import opened Config
  import opened Projects

  /** `_SUB`: None (idle), a running process, or False (the last process failed). */
  datatype Sub = Idle | Running | Failed

  /** `_SUBEXPIRE`: a new refresh is started at most once an hour unless forced. */
  const SubExpire: real := 3600.0
  /** `_CFGCHECKFREQ`: the configuration file is looked at at most every 3 seconds. */
  const CfgCheckFreq: real := 3.0

  /** One powerline segment: its contents, its highlight groups and its divider group. */
  datatype Segment = Segment(contents: string, highlightGroups: seq<string>, divider: Option<string>)

  /** The categories `wsnames` accepts. */
  const Categories: seq<string> :=
    ["JERJERROD:CHANGED", "JERJERROD:UNTRACKED", "JERJERROD:UNPUSHED", "JERJERROD:UNKNOWN"]

  /** The names, in enumeration order, of the projects whose status is one of `wanted`. */
  function Matching(listed: seq<(string, Status)>, wanted: seq<string>): (r: seq<string>)
    ensures |r| <= |listed|
  {
    if listed == [] then []
    else
      var rest := Matching(listed[1..], wanted);
      if StatusName(listed[0].1) in wanted then [listed[0].0] + rest else rest
  }

  /** A name is listed exactly when some project with that name has a wanted status. */
  lemma {:induction false} MatchingMembers(listed: seq<(string, Status)>, wanted: seq<string>)
    ensures forall n :: n in Matching(listed, wanted) <==>
      exists k :: 0 <= k < |listed| && listed[k].0 == n && StatusName(listed[k].1) in wanted
  {
    if listed != [] {
      MatchingMembers(listed[1..], wanted);
      assert forall k :: 0 < k < |listed| ==> listed[k] == listed[1..][k - 1];
      forall n | exists k :: 0 <= k < |listed| && listed[k].0 == n && StatusName(listed[k].1) in wanted
        ensures n in Matching(listed, wanted)
      {
        var k :| 0 <= k < |listed| && listed[k].0 == n && StatusName(listed[k].1) in wanted;
        if k > 0 {
          assert listed[1..][k - 1].0 == n;
        }
      }
    }
  }

  /** The text that stands for the names left out. */
  function MoreText(n: nat): string
  {
    "(+" + NatToString(n) + " more)"
  }

  /** Lines 94-97 of `wsnames`: at most five names in the UNKNOWN category, then a note of
      how many more there are; other categories are shown whole. */
  function Truncated(names: seq<string>, category: string): (r: seq<string>)
    ensures category != "JERJERROD:UNKNOWN" || |names| <= 5 ==> r == names
    ensures category == "JERJERROD:UNKNOWN" && |names| > 5 ==>
      |r| == 6 && r[..5] == names[..5] && r[5] == MoreText(|names| - 5)
    ensures |r| <= |names|
  {
    if category == "JERJERROD:UNKNOWN" && |names| > 5 then names[..5] + [MoreText(|names| - 5)] else names
  }

  /** The note keeps the count: reading the number back and adding the five shown gives
      the number of names. */
  lemma TruncationKeepsCount(names: seq<string>)
    requires |names| > 5
    ensures var note := Truncated(names, "JERJERROD:UNKNOWN")[5];
      |note| > 8 && DecimalValue(note[2..|note| - 6]) + 5 == |names|
  {
    var digits := NatToString(|names| - 5);
    var note := MoreText(|names| - 5);
    assert note == "(+" + digits + " more)";
    assert note[2..|note| - 6] == digits;
  }

  /** The segments `wsnames` returns: none without names, else one whose contents are the
      names separated by spaces. */
  function NamesSegments(names: seq<string>, category: string): (r: seq<Segment>)
    ensures names == [] <==> r == []
    ensures r != [] ==> |r| == 1 && r[0].highlightGroups == [category]
    ensures r != [] ==> r[0].divider == Some("JERJERROD:SEPARATOR")
    ensures r != [] ==> forall i :: 0 <= i < |names| ==> Contains(r[0].contents, names[i])
  {
    if |names| == 0 then []
    else
      JoinContains(" ", names);
      [Segment(Join(" ", names), [category], Some("JERJERROD:SEPARATOR"))]
  }

  /** The segment's text splits at its spaces back into the names, when no name holds a
      space (project names are directory basenames, which may). */
  lemma NamesSegmentsNames(names: seq<string>, category: string)
    requires names != []
    requires forall i :: 0 <= i < |names| ==> ' ' !in names[i]
    ensures Split(NamesSegments(names, category)[0].contents, ' ') == names
  {
    SplitJoin(' ', names);
  }

  /** The names of configured entries, in order. */
  function Names(cs: seq<Configured>): (r: seq<string>)
    ensures |r| == |cs| && forall i :: 0 <= i < |cs| ==> r[i] == cs[i].name
  {
    seq(|cs|, i requires 0 <= i < |cs| => cs[i].name)
  }

  /** The names `get_all_projects` yields over a workspace listing and the single projects:
      every workspace, then the single projects before the first one it refuses. */
  function EnumeratedNames(workspaces: seq<Configured>, singles: seq<Configured>,
                           markers: string -> (bool, bool)): seq<string>
  {
    Names(workspaces) + Names(singles[..FirstBadSingle(singles, markers)])
  }

  /** The error that ends `get_all_projects`, if any: the first refused single project's. */
  function EnumerationFailure(singles: seq<Configured>, markers: string -> (bool, bool)): Option<Error>
  {
    var k := FirstBadSingle(singles, markers);
    if k < |singles| then Some(SingleCheck(singles[k], markers).error) else None
  }

  /** The part of the enumeration, from its k-th project on, that the loop of `wsnames` gets
      through: each name with the status `getstatus(False)` gives it (`status(j)` for the
      j-th project), up to the first status that raises, and that error. */
  function Reported(names: seq<string>, status: nat -> Result<Status>, k: nat): (r: (seq<(string, Status)>, Option<Error>))
    requires k <= |names|
    ensures |r.0| <= |names| - k
    ensures forall j :: k <= j < k + |r.0| ==> status(j).Ok? && r.0[j - k] == (names[j], status(j).value)
    ensures r.1.None? <==> |r.0| == |names| - k
    ensures r.1.Some? ==> status(k + |r.0|) == Err(r.1.value)
    decreases |names| - k
  {
    if k == |names| then ([], None)
    else
      match status(k)
      case Err(e) => ([], Some(e))
      case Ok(st) =>
        var rest := Reported(names, status, k + 1);
        var r0 := [(names[k], st)] + rest.0;
        assert forall j :: 0 < j < |r0| ==> r0[j] == rest.0[j - 1];
        (r0, rest.1)
  }

  /** Whether the configuration file was looked at less than `CfgCheckFreq` seconds ago. */
  predicate CheckedRecently(checkTime: Option<real>, now: real) {
    checkTime.Some? && now - checkTime.value < CfgCheckFreq
  }

  /** What `wsnames` gives over an enumeration: the names in the category of the projects
      reported before any failure, truncated and as segments, unless a status raised or the
      enumeration stopped at a refused single project; and, from an idle state, a refresh
      started exactly when one of those projects is UNKNOWN. */
  predicate Enumerated(r: Result<seq<Segment>>, started: bool, sub0: Sub, category: string,
                       listing: seq<Configured>, singles: seq<Configured>,
                       markers: string -> (bool, bool), status: nat -> Result<Status>)
  {
    var reported := Reported(EnumeratedNames(listing, singles, markers), status, 0);
    var failure := if reported.1.Some? then reported.1 else EnumerationFailure(singles, markers);
    && r == (if failure.Some? then Err(failure.value)
             else Ok(NamesSegments(Truncated(Matching(reported.0, [category]), category), category)))
    && (sub0 == Idle ==> (started <==> exists k :: 0 <= k < |reported.0| && reported.0[k].1 == UNKNOWN))
  }

  /** The state the powerline module keeps between prompts. */
  class PowerlineState {
    /** `RCFILE`: the path of the configuration file. */
    const rcfile: string
    /** `_SUB` */
    var sub: Sub
    /** `_SUBTIME`: when the last refresh process was seen to finish. */
    var subTime: Option<real>
    /** `_CFGCACHE`: the configuration cache `wsnames` enumerates the projects from; reset
        by `ExpireCfgCache` when the configuration file's time changes. */
    var cfgCache: ConfigCache
    /** `_CFGTIME`: the configuration file's modification time when last looked at. */
    var cfgTime: Option<real>
    /** `_CFGCHECKTIME`: when the configuration file was last looked at. */
    var cfgCheckTime: Option<real>

    /** A failed refresh has always been seen to finish. */
    predicate Valid()
      reads this
    {
      sub == Failed ==> subTime.Some?
    }

    /** The module's state at import. */
    constructor (rcfile: string)
      ensures this.rcfile == rcfile && Valid()
      ensures sub == Idle && subTime == None && cfgTime == None && cfgCheckTime == None
      ensures fresh(cfgCache) && !cfgCache.populated
    {
      this.rcfile := rcfile;
      sub := Idle;
      subTime := None;
      cfgCache := new ConfigCache();
      cfgTime := None;
      cfgCheckTime := None;
    }

    /** `_refresh(force)` at time `now`; `poll` is what polling the running process gives
        (its exit status once it has finished). The result says whether a new process was
        started. A running process is only polled, a failure is kept for good, and an idle
        state starts a process when forced, when none has finished yet, or when the last
        one finished an hour ago or more. */
    method Refresh(force: bool, now: real, poll: Option<int>) returns (started: bool)
      requires Valid()
      modifies this
      ensures Valid()
      ensures cfgCache == old(cfgCache) && cfgTime == old(cfgTime) && cfgCheckTime == old(cfgCheckTime)
      ensures started <==> old(sub) == Idle && sub == Running
      ensures started <==>
        old(sub) == Idle && (force || old(subTime).None? || now - old(subTime).value >= SubExpire)
      ensures old(sub) == Running && poll.None? ==> sub == Running && subTime == old(subTime)
      ensures old(sub) == Running && poll.Some? ==>
        sub == (if poll.value == 0 then Idle else Failed) && subTime == Some(now)
      ensures old(sub) == Failed ==> sub == Failed && subTime == old(subTime)
      ensures old(sub) == Idle ==> subTime == old(subTime) && sub in {Idle, Running}
    {
      started := false;
      if sub == Running {
        if poll.Some? {
          sub := if poll.value == 0 then Idle else Failed;
          subTime := Some(now);
        }
        return;
      }
      if sub == Failed {
        return;
      }
      if subTime.Some? && now - subTime.value < SubExpire && !force {
        return;
      }
      sub := Running;
      started := true;
    }

    /** `wsscancount()`: after an unforced refresh, one segment while a refresh is running
        ("***") or has failed ("!!!"), none while idle. */
    method WsScanCount(now: real, poll: Option<int>) returns (segments: seq<Segment>)
      requires Valid()
      modifies this
      ensures Valid()
      ensures sub == Idle <==> segments == []
      ensures sub == Running ==> segments == [Segment("***", ["JERJERROD:SCANNING"], None)]
      ensures sub == Failed ==> segments == [Segment("!!!", ["JERJERROD:SCANNING"], None)]
      ensures old(sub) == Failed ==> sub == Failed
      ensures cfgCache == old(cfgCache) && cfgTime == old(cfgTime) && cfgCheckTime == old(cfgCheckTime)
    {
      var _ := Refresh(false, now, poll);
      segments := [];
      if sub != Idle {
        segments := segments + [Segment(if sub == Failed then "!!!" else "***", ["JERJERROD:SCANNING"], None)];
      }
    }

    /** `_expirecfgcache()` at time `now`, with `mtime` the configuration file's modification
        time (None when the file is missing, which makes the `os.stat` fail after the check
        time has been recorded). The cached configuration is dropped when the file's time
        differs from the one last seen. */
    method ExpireCfgCache(now: real, mtime: Option<real>) returns (r: Result<()>)
      modifies this
      ensures sub == old(sub) && subTime == old(subTime)
      ensures old(cfgCheckTime).Some? && now - old(cfgCheckTime).value < CfgCheckFreq ==>
        r.Ok? && cfgCheckTime == old(cfgCheckTime) && cfgTime == old(cfgTime) && cfgCache == old(cfgCache)
      ensures !(old(cfgCheckTime).Some? && now - old(cfgCheckTime).value < CfgCheckFreq) ==>
        && cfgCheckTime == Some(now)
        && (mtime.None? ==> r == Err(FileNotFound(rcfile)) && cfgTime == old(cfgTime) && cfgCache == old(cfgCache))
        && (mtime.Some? && mtime == old(cfgTime) ==> r.Ok? && cfgTime == old(cfgTime) && cfgCache == old(cfgCache))
        && (mtime.Some? && mtime != old(cfgTime) ==>
              r.Ok? && cfgTime == mtime && fresh(cfgCache) && !cfgCache.populated)
    {
      if cfgCheckTime.Some? && now - cfgCheckTime.value < CfgCheckFreq {
        return Ok(());
      }
      cfgCheckTime := Some(now);
      if mtime.None? {
        return Err(FileNotFound(rcfile));
      }
      if mtime != cfgTime {
        cfgTime := mtime;
        cfgCache := new ConfigCache();
      }
      r := Ok(());
    }

    /** `wsnames(category)` at time `now`. The projects are enumerated from the configuration
        cache: `file` is the configuration file's lines (None when it is missing), `expand`
        and `glob` resolve its paths, `listings` lists a workspace directory and `markers`
        says whether a directory holds `.git` and `.hg`. `status(k)` is what the k-th project
        enumerated reports without inspecting. A configuration error is raised by the call
        that populates the cache; later calls use what was read before the error, until the
        file's time changes. A project reported as UNKNOWN while no refresh is running or
        failed forces one. The ghost `listing` is the sorted workspace listing enumerated. */
    method WsNames(category: string, now: real, mtime: Option<real>, file: Option<seq<string>>,
                   expand: string -> string, glob: string -> seq<string>,
                   listings: string -> seq<Listing>, markers: string -> (bool, bool),
                   status: nat -> Result<Status>)
      returns (r: Result<seq<Segment>>, started: bool, ghost listing: seq<Configured>)
      requires Valid()
      modifies this, cfgCache
      ensures Valid() && subTime == old(subTime)
      ensures old(sub) == Failed ==> sub == Failed && !started
      ensures old(sub) == Running ==> sub == Running && !started
      ensures started ==> old(sub) == Idle && sub == Running
      ensures !started ==> sub == old(sub)
      // `_expirecfgcache`
      ensures CheckedRecently(old(cfgCheckTime), now) ==>
        cfgCheckTime == old(cfgCheckTime) && cfgTime == old(cfgTime) && cfgCache == old(cfgCache)
      ensures !CheckedRecently(old(cfgCheckTime), now) ==>
        && cfgCheckTime == Some(now)
        && (mtime.None? ==> r == Err(FileNotFound(rcfile)) && cfgTime == old(cfgTime) && cfgCache == old(cfgCache)
                            && cfgCache.Held() == old(cfgCache.Held()) && cfgCache.populated == old(cfgCache.populated))
        && (mtime.Some? && mtime == old(cfgTime) ==> cfgTime == old(cfgTime) && cfgCache == old(cfgCache))
        && (mtime.Some? && mtime != old(cfgTime) ==> cfgTime == mtime && fresh(cfgCache))
      ensures (CheckedRecently(old(cfgCheckTime), now) || mtime.Some?) && category !in Categories ==>
        r == Err(AssertionFailed("category")) && !started
      // the configuration cache read, and the enumeration
      ensures (CheckedRecently(old(cfgCheckTime), now) || mtime.Some?) && category in Categories ==>
        var loaded := (CheckedRecently(old(cfgCheckTime), now) || mtime == old(cfgTime)) && old(cfgCache.populated);
        var failed := !loaded && file.Some? && Load(file.value, expand, glob).error.Some?;
        && cfgCache.populated
        && (loaded ==> cfgCache.Held() == old(cfgCache.Held()))
        && (!loaded && file.None? ==> cfgCache.Held() == NoDeclarations)
        && (!loaded && file.Some? ==> cfgCache.Held() == Load(file.value, expand, glob).declared)
        && (failed ==> r == Err(Load(file.value, expand, glob).error.value) && !started)
        && (!failed ==>
              && SortedByName(listing) && ListsWorkspaces(listing, cfgCache.workspaces)
              && Enumerated(r, started, old(sub), category, listing, cfgCache.singles, markers, status))
    {
      started := false;
      listing := [];
      var expired := ExpireCfgCache(now, mtime);
      if expired.Err? {
        return Err(expired.error), false, listing;
      }
      if category !in Categories {
        return Err(AssertionFailed("category")), false, listing;
      }
      r, started, listing := NamesFromCache(category, now, file, expand, glob, listings, markers, status);
    }

    /** Lines 85-106 of `wsnames`, after the category check: the configuration cache is
        populated if it is not yet, which is where a configuration error is raised, and the
        projects it declares are enumerated. */
    method NamesFromCache(category: string, now: real, file: Option<seq<string>>,
                          expand: string -> string, glob: string -> seq<string>,
                          listings: string -> seq<Listing>, markers: string -> (bool, bool),
                          status: nat -> Result<Status>)
      returns (r: Result<seq<Segment>>, started: bool, ghost listing: seq<Configured>)
      requires Valid()
      modifies this, cfgCache
      ensures Valid() && subTime == old(subTime)
      ensures cfgCache == old(cfgCache) && cfgTime == old(cfgTime) && cfgCheckTime == old(cfgCheckTime)
      ensures old(sub) == Failed ==> sub == Failed && !started
      ensures old(sub) == Running ==> sub == Running && !started
      ensures started ==> old(sub) == Idle && sub == Running
      ensures !started ==> sub == old(sub)
      ensures cfgCache.populated
      ensures old(cfgCache.populated) ==> cfgCache.Held() == old(cfgCache.Held())
      ensures !old(cfgCache.populated) && file.None? ==> cfgCache.Held() == NoDeclarations
      ensures !old(cfgCache.populated) && file.Some? ==> cfgCache.Held() == Load(file.value, expand, glob).declared
      ensures !old(cfgCache.populated) && file.Some? && Load(file.value, expand, glob).error.Some? ==>
        r == Err(Load(file.value, expand, glob).error.value) && !started
      ensures !(!old(cfgCache.populated) && file.Some? && Load(file.value, expand, glob).error.Some?) ==>
        && SortedByName(listing) && ListsWorkspaces(listing, cfgCache.workspaces)
        && Enumerated(r, started, old(sub), category, listing, cfgCache.singles, markers, status)
    {
      listing := [];
      var ws := cfgCache.GetWorkspaces(file, expand, glob);
      if ws.Err? {
        return Err(ws.error), false, listing;
      }
      listing := ws.value;
      var singles := cfgCache.GetSingles(file, expand, glob);
      assert singles == Ok(cfgCache.singles);
      r, started := ListNames(category, now, ws.value, singles.value, listings, markers, status);
    }

    /** The loop of `wsnames` over `get_all_projects`, given the workspace listing and the
        single projects of the configuration cache. */
    method ListNames(category: string, now: real, listing: seq<Configured>, singles: seq<Configured>,
                     listings: string -> seq<Listing>, markers: string -> (bool, bool),
                     status: nat -> Result<Status>)
      returns (r: Result<seq<Segment>>, started: bool)
      requires Valid()
      modifies this
      ensures Valid() && subTime == old(subTime)
      ensures cfgCache == old(cfgCache) && cfgTime == old(cfgTime) && cfgCheckTime == old(cfgCheckTime)
      ensures old(sub) == Failed ==> sub == Failed && !started
      ensures old(sub) == Running ==> sub == Running && !started
      ensures started ==> old(sub) == Idle && sub == Running
      ensures !started ==> sub == old(sub)
      ensures Enumerated(r, started, old(sub), category, listing, singles, markers, status)
    {
      var projects, failure := AllProjects(listing, singles, listings, markers);
      var names := seq(|projects|, i requires 0 <= i < |projects| => ProjectName(projects[i]));
      assert names == EnumeratedNames(listing, singles, markers);
      var reported := Reported(names, status, 0);
      var matched;
      matched, started := CollectNames(category, now, reported.0);
      if reported.1.Some? {
        return Err(reported.1.value), started;
      }
      if failure.Some? {
        return Err(failure.value), started;
      }
      r := Ok(NamesSegments(Truncated(matched, category), category));
    }

    /** The loop of `wsnames` over the projects enumerated: the names whose status is the
        category, in order; an UNKNOWN project met while idle forces a refresh. */
    method CollectNames(category: string, now: real, listed: seq<(string, Status)>)
      returns (names: seq<string>, started: bool)
      requires Valid()
      modifies this
      ensures Valid() && subTime == old(subTime)
      ensures cfgCache == old(cfgCache) && cfgTime == old(cfgTime) && cfgCheckTime == old(cfgCheckTime)
      ensures names == Matching(listed, [category])
      ensures old(sub) == Failed ==> sub == Failed && !started
      ensures old(sub) == Running ==> sub == Running && !started
      ensures old(sub) == Idle ==> (started <==> exists k :: 0 <= k < |listed| && listed[k].1 == UNKNOWN)
      ensures old(sub) == Idle ==> (sub == Running <==> started) && sub != Failed
    {
      names := [];
      started := false;
      var i := 0;
      while i < |listed|
        invariant 0 <= i <= |listed|
        invariant Valid() && subTime == old(subTime)
        invariant cfgCache == old(cfgCache) && cfgTime == old(cfgTime) && cfgCheckTime == old(cfgCheckTime)
        invariant names == Matching(listed[..i], [category])
        invariant old(sub) == Failed ==> sub == Failed && !started
        invariant old(sub) == Running ==> sub == Running && !started
        invariant old(sub) == Idle ==> (started <==> exists k :: 0 <= k < i && listed[k].1 == UNKNOWN)
        invariant old(sub) == Idle ==> (sub == Running <==> started) && sub != Failed
      {
        var entry := listed[i];
        if entry.1 == UNKNOWN && sub == Idle {
          var s := Refresh(true, now, None);
          started := started || s;
        }
        if StatusName(entry.1) == category {
          names := names + [entry.0];
        }
        MatchingStep(listed, [category], i);
        i := i + 1;
      }
      assert listed[..|listed|] == listed;
    }
  }

  /** Matching one more entry appends its name when its status is wanted. */
  lemma {:induction false} MatchingStep(listed: seq<(string, Status)>, wanted: seq<string>, i: nat)
    requires i < |listed|
    ensures Matching(listed[..i + 1], wanted) ==
      Matching(listed[..i], wanted) + (if StatusName(listed[i].1) in wanted then [listed[i].0] else [])
  {
    if i > 0 {
      MatchingStep(listed[1..], wanted, i - 1);
      assert listed[1..][..i] == listed[..i + 1][1..];
      assert listed[1..][..i - 1] == listed[..i][1..];
    } else {
      assert listed[..1][1..] == [];
    }
  }
}
