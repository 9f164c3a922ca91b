/** The version-control inspectors: output-line parsing, status-code classification, the
    git and mercurial "outgoing" checks and the stash count. Every command's output is an
    input; nothing is run. */
module Inspect {
  import opened Common
  import opened Strings
  import opened Records

  // ---------------------------------------------------------------------------------
  // Command output

  /** A line as `cmd2lines` yields it: non-empty, no trailing whitespace, no newline. */
  predicate IsLine(line: string) {
    line != [] && !IsSpace(line[|line| - 1]) && '\n' !in line
  }

  /** The right-stripped pieces that are not blank, in order. */
  function NonBlank(pieces: seq<string>): (r: seq<string>)
    requires forall i :: 0 <= i < |pieces| ==> '\n' !in pieces[i]
    ensures |r| <= |pieces|
    ensures forall i :: 0 <= i < |r| ==> IsLine(r[i])
  {
    if pieces == [] then []
    else
      var n := |pieces| - 1;
      var line := RStrip(pieces[n]);
      assert forall k :: 0 <= k < |line| ==> line[k] == pieces[n][k];
      NonBlank(pieces[..n]) + (if line != [] then [line] else [])
  }

  /** The positions of the pieces that are not blank once right-stripped, in order. */
  function Kept(pieces: seq<string>): (idx: seq<nat>)
    ensures forall k :: 0 <= k < |idx| ==> idx[k] < |pieces|
  {
    if pieces == [] then []
    else
      var n := |pieces| - 1;
      Kept(pieces[..n]) + (if RStrip(pieces[n]) != [] then [n] else [])
  }

  /** The kept lines are the right-stripped pieces at the kept positions. */
  lemma {:induction false} KeptLines(pieces: seq<string>)
    requires forall i :: 0 <= i < |pieces| ==> '\n' !in pieces[i]
    ensures |Kept(pieces)| == |NonBlank(pieces)|
    ensures forall k :: 0 <= k < |Kept(pieces)| ==> NonBlank(pieces)[k] == RStrip(pieces[Kept(pieces)[k]])
    decreases |pieces|
  {
    if pieces != [] {
      var n := |pieces| - 1;
      var init := pieces[..n];
      KeptLines(init);
      var rest := Kept(init);
      var idx := Kept(pieces);
      assert NonBlank(pieces) == NonBlank(init) + (if RStrip(pieces[n]) != [] then [RStrip(pieces[n])] else []);
      forall k | 0 <= k < |idx|
        ensures NonBlank(pieces)[k] == RStrip(pieces[idx[k]])
      {
        if k < |rest| {
          assert idx[k] == rest[k] && pieces[rest[k]] == init[rest[k]];
        }
      }
    }
  }

  /** The kept positions increase. */
  lemma {:induction false} KeptIncreasing(pieces: seq<string>)
    ensures forall j, k :: 0 <= j < k < |Kept(pieces)| ==> Kept(pieces)[j] < Kept(pieces)[k]
    decreases |pieces|
  {
    if pieces != [] {
      KeptIncreasing(pieces[..|pieces| - 1]);
    }
  }

  /** A position is kept exactly when its piece is not blank once right-stripped. */
  lemma {:induction false} KeptExactly(pieces: seq<string>)
    ensures forall i :: 0 <= i < |pieces| ==> (RStrip(pieces[i]) != [] <==> i in Kept(pieces))
    decreases |pieces|
  {
    if pieces != [] {
      var n := |pieces| - 1;
      var init := pieces[..n];
      KeptExactly(init);
      forall i | 0 <= i < |pieces|
        ensures RStrip(pieces[i]) != [] <==> i in Kept(pieces)
      {
        if i < n {
          assert pieces[i] == init[i];
        } else {
          assert n !in Kept(init);
        }
      }
    }
  }

  /** The positions a list of indices names. */
  function Positions(idx: seq<nat>): set<nat> { set k | k in idx }

  /** A strictly increasing list names as many positions as it has entries. */
  lemma {:induction false} IncreasingCard(idx: seq<nat>)
    requires forall j, k :: 0 <= j < k < |idx| ==> idx[j] < idx[k]
    ensures |Positions(idx)| == |idx|
    decreases |idx|
  {
    if idx != [] {
      var n := |idx| - 1;
      var init := idx[..n];
      IncreasingCard(init);
      assert idx[n] !in Positions(init) by {
        forall k | 0 <= k < n
          ensures init[k] != idx[n]
        {
          assert init[k] == idx[k];
        }
      }
      assert Positions(idx) == Positions(init) + {idx[n]} by {
        assert idx == init + [idx[n]];
      }
    }
  }

  /** How many pieces are not blank once right-stripped. */
  lemma NonBlankCount(pieces: seq<string>)
    requires forall i :: 0 <= i < |pieces| ==> '\n' !in pieces[i]
    ensures |NonBlank(pieces)| == |set i | 0 <= i < |pieces| && RStrip(pieces[i]) != []|
  {
    var idx := Kept(pieces);
    KeptLines(pieces);
    KeptIncreasing(pieces);
    KeptExactly(pieces);
    IncreasingCard(idx);
    assert (set i | 0 <= i < |pieces| && RStrip(pieces[i]) != []) == Positions(idx);
  }

  /** `cmd2lines`: the output split at newlines, each line right-stripped, blank ones dropped. */
  function CmdToLines(output: string): (r: seq<string>)
    ensures forall i :: 0 <= i < |r| ==> IsLine(r[i])
  {
    NonBlank(Split(output, '\n'))
  }

  /** Lines written out one per row are read back as they were. */
  lemma CmdToLinesJoin(lines: seq<string>)
    requires forall i :: 0 <= i < |lines| ==> IsLine(lines[i])
    ensures CmdToLines(Join("\n", lines)) == lines
  {
    if lines == [] {
      assert Split("", '\n') == [""];
      assert NonBlank([""]) == NonBlank([""][1..]);
    } else {
      assert "\n" == ['\n'];
      SplitJoin('\n', lines);
      NonBlankKeepsLines(lines);
    }
  }

  /** Lines are kept as they are. */
  lemma {:induction false} NonBlankKeepsLines(lines: seq<string>)
    requires forall i :: 0 <= i < |lines| ==> IsLine(lines[i])
    requires forall i :: 0 <= i < |lines| ==> '\n' !in lines[i]
    ensures NonBlank(lines) == lines
    decreases |lines|
  {
    if lines != [] {
      var n := |lines| - 1;
      NonBlankKeepsLines(lines[..n]);
      assert IsLine(lines[n]);
      assert RStrip(lines[n]) == lines[n];
      assert lines == lines[..n] + [lines[n]];
    }
  }

  // ---------------------------------------------------------------------------------
  // Status lines

  datatype Vcs = Git | Hg

  /** How one status line is read. */
  datatype LineClass = ChangedLine(path: string) | UntrackedLine(path: string) | Unexpected

  /** One character of git's `[MADU ]` class. */
  predicate GitCode(c: char) { c == 'M' || c == 'A' || c == 'D' || c == 'U' || c == ' ' }

  /** One character of mercurial's `[MADR!]` class. */
  predicate HgCode(c: char) { c == 'M' || c == 'A' || c == 'D' || c == 'R' || c == '!' }

  /** `GitInspector.statuslines`, one line: `^(?!  )[MADU ]{2} ` on the first three
      characters is a change, " ? " or "?? " is untracked; the path follows the code. */
  function ClassifyGit(line: string): (r: LineClass)
    ensures r != Unexpected ==> |line| >= 3 && line[2] == ' ' && r.path == line[3..]
    ensures r.ChangedLine? ==> line[..2] != "  " && line[0] != '?' && line[1] != '?'
  {
    if |line| >= 3 && GitCode(line[0]) && GitCode(line[1]) && line[..2] != "  " && line[2] == ' ' then
      ChangedLine(line[3..])
    else if |line| >= 3 && (line[..3] == " ? " || line[..3] == "?? ") then
      UntrackedLine(line[3..])
    else
      Unexpected
  }

  /** `HgInspector.statuslines`, one line: `^[MADR!] ` is a change, "? " is untracked. */
  function ClassifyHg(line: string): (r: LineClass)
    ensures r != Unexpected ==> |line| >= 2 && line[1] == ' ' && r.path == line[2..]
    ensures r.UntrackedLine? <==> |line| >= 2 && line[..2] == "? "
  {
    if |line| >= 2 && HgCode(line[0]) && line[1] == ' ' then ChangedLine(line[2..])
    else if |line| >= 2 && line[..2] == "? " then UntrackedLine(line[2..])
    else Unexpected
  }

  function Classify(vcs: Vcs, line: string): LineClass
  {
    match vcs
    case Git => ClassifyGit(line)
    case Hg => ClassifyHg(line)
  }

  /** Git status codes, stated per code: both characters from {M,A,D,U,space} but not two
      spaces, then a space, is a change; " ? " and "?? " are untracked; a rename ("R  "),
      an ignored file ("!! ") or anything shorter than three characters is rejected. */
  lemma GitCodes(line: string)
    ensures ClassifyGit(line).ChangedLine? <==>
      |line| >= 3 && line[0] in "MADU " && line[1] in "MADU " && !(line[0] == ' ' && line[1] == ' ') && line[2] == ' '
    ensures ClassifyGit(line).UntrackedLine? <==> |line| >= 3 && line[..3] in [" ? ", "?? "]
    ensures ClassifyGit(line) != Unexpected ==> ClassifyGit(line).path == line[3..]
    ensures |line| >= 3 && line[0] in "R!" ==> ClassifyGit(line) == Unexpected
  {
  }

  /** Mercurial status codes: one of M, A, D, R, ! then a space is a change; "? " is
      untracked; the path starts at the third character. */
  lemma HgCodes(line: string)
    ensures ClassifyHg(line).ChangedLine? <==> |line| >= 2 && line[0] in "MADR!" && line[1] == ' '
    ensures ClassifyHg(line).UntrackedLine? <==> |line| >= 2 && line[0] == '?' && line[1] == ' '
    ensures ClassifyHg(line) != Unexpected ==> ClassifyHg(line).path == line[2..]
  {
  }

  /** A path read from a `cmd2lines` line is never empty and never ends in whitespace. */
  lemma ParsedPathsAreNonEmpty(vcs: Vcs, line: string)
    requires IsLine(line) && Classify(vcs, line) != Unexpected
    ensures Classify(vcs, line).path != []
    ensures !IsSpace(Classify(vcs, line).path[|Classify(vcs, line).path| - 1])
  {
  }

  datatype StatusLists = StatusLists(changed: seq<string>, untracked: seq<string>)

  /** The status lines as the parsing loop reads them, left to right: the first
      unexpected line is an error, otherwise each path goes to its list. */
  function ParseStatus(vcs: Vcs, lines: seq<string>): (r: Result<StatusLists>)
    ensures r.Ok? ==> |r.value.changed| + |r.value.untracked| == |lines|
    ensures r.Err? ==> r.error.UnexpectedStatusLine? && r.error.line in lines
    ensures r.Err? ==> Classify(vcs, r.error.line) == Unexpected
    decreases |lines|
  {
    if lines == [] then Ok(StatusLists([], []))
    else
      match ParseStatus(vcs, lines[..|lines| - 1])
      case Err(e) => Err(e)
      case Ok(acc) =>
        var line := lines[|lines| - 1];
        match Classify(vcs, line)
        case ChangedLine(p) => Ok(StatusLists(acc.changed + [p], acc.untracked))
        case UntrackedLine(p) => Ok(StatusLists(acc.changed, acc.untracked + [p]))
        case Unexpected => Err(UnexpectedStatusLine(line))
  }

  /** Reference definition: the paths of the changed lines, in order. */
  function ChangedPaths(vcs: Vcs, lines: seq<string>): seq<string>
  {
    if lines == [] then []
    else
      (if Classify(vcs, lines[0]).ChangedLine? then [Classify(vcs, lines[0]).path] else [])
      + ChangedPaths(vcs, lines[1..])
  }

  /** Reference definition: the paths of the untracked lines, in order. */
  function UntrackedPaths(vcs: Vcs, lines: seq<string>): seq<string>
  {
    if lines == [] then []
    else
      (if Classify(vcs, lines[0]).UntrackedLine? then [Classify(vcs, lines[0]).path] else [])
      + UntrackedPaths(vcs, lines[1..])
  }

  predicate AllExpected(vcs: Vcs, lines: seq<string>) {
    forall i :: 0 <= i < |lines| ==> Classify(vcs, lines[i]) != Unexpected
  }

  lemma PathsAppend(vcs: Vcs, lines: seq<string>, line: string)
    ensures ChangedPaths(vcs, lines + [line]) == ChangedPaths(vcs, lines) + ChangedPaths(vcs, [line])
    ensures UntrackedPaths(vcs, lines + [line]) == UntrackedPaths(vcs, lines) + UntrackedPaths(vcs, [line])
  {
    ChangedAppend(vcs, lines, line);
    UntrackedAppend(vcs, lines, line);
  }

  /** The changed half of `PathsAppend`. */
  lemma {:induction false} ChangedAppend(vcs: Vcs, lines: seq<string>, line: string)
    ensures ChangedPaths(vcs, lines + [line]) == ChangedPaths(vcs, lines) + ChangedPaths(vcs, [line])
    decreases |lines|
  {
    if lines != [] {
      assert (lines + [line])[1..] == lines[1..] + [line];
      ChangedAppend(vcs, lines[1..], line);
    }
  }

  /** The untracked half of `PathsAppend`. */
  lemma {:induction false} UntrackedAppend(vcs: Vcs, lines: seq<string>, line: string)
    ensures UntrackedPaths(vcs, lines + [line]) == UntrackedPaths(vcs, lines) + UntrackedPaths(vcs, [line])
    decreases |lines|
  {
    if lines != [] {
      assert (lines + [line])[1..] == lines[1..] + [line];
      UntrackedAppend(vcs, lines[1..], line);
    }
  }

  /** Parsing succeeds exactly when every line has a known code; then the changed and
      untracked lists are the paths of the changed and untracked lines in input order, and
      every line lands in exactly one of them. On failure the error names the first line
      with an unknown code. */
  lemma ParseStatusSpec(vcs: Vcs, lines: seq<string>)
    ensures ParseStatus(vcs, lines).Ok? <==> AllExpected(vcs, lines)
    ensures ParseStatus(vcs, lines).Ok? ==>
      ParseStatus(vcs, lines).value == StatusLists(ChangedPaths(vcs, lines), UntrackedPaths(vcs, lines))
    ensures ParseStatus(vcs, lines).Ok? ==>
      |ParseStatus(vcs, lines).value.changed| + |ParseStatus(vcs, lines).value.untracked| == |lines|
    ensures ParseStatus(vcs, lines).Err? ==>
      exists i :: 0 <= i < |lines| && Classify(vcs, lines[i]) == Unexpected
        && ParseStatus(vcs, lines).error == UnexpectedStatusLine(lines[i])
        && AllExpected(vcs, lines[..i])
  {
    ParseStatusOkIff(vcs, lines);
    ParseStatusValue(vcs, lines);
    ParseStatusFirstError(vcs, lines);
  }

  lemma AllExpectedSnoc(vcs: Vcs, lines: seq<string>)
    requires lines != []
    ensures AllExpected(vcs, lines) <==>
      AllExpected(vcs, lines[..|lines| - 1]) && Classify(vcs, lines[|lines| - 1]) != Unexpected
  {
    var init := lines[..|lines| - 1];
    if AllExpected(vcs, init) && Classify(vcs, lines[|lines| - 1]) != Unexpected {
      forall i | 0 <= i < |lines|
        ensures Classify(vcs, lines[i]) != Unexpected
      {
        if i < |lines| - 1 {
          assert lines[i] == init[i];
        }
      }
    }
  }

  lemma {:induction false} ParseStatusOkIff(vcs: Vcs, lines: seq<string>)
    ensures ParseStatus(vcs, lines).Ok? <==> AllExpected(vcs, lines)
    decreases |lines|
  {
    if lines != [] {
      ParseStatusOkIff(vcs, lines[..|lines| - 1]);
      AllExpectedSnoc(vcs, lines);
    }
  }

  lemma {:induction false} ParseStatusValue(vcs: Vcs, lines: seq<string>)
    ensures ParseStatus(vcs, lines).Ok? ==>
      ParseStatus(vcs, lines).value == StatusLists(ChangedPaths(vcs, lines), UntrackedPaths(vcs, lines))
    ensures ParseStatus(vcs, lines).Ok? ==>
      |ParseStatus(vcs, lines).value.changed| + |ParseStatus(vcs, lines).value.untracked| == |lines|
    decreases |lines|
  {
    if lines != [] {
      var init := lines[..|lines| - 1];
      var line := lines[|lines| - 1];
      ParseStatusValue(vcs, init);
      assert lines == init + [line];
      PathsAppend(vcs, init, line);
    }
  }

  lemma {:induction false} ParseStatusFirstError(vcs: Vcs, lines: seq<string>)
    ensures ParseStatus(vcs, lines).Err? ==>
      exists i :: 0 <= i < |lines| && Classify(vcs, lines[i]) == Unexpected
        && ParseStatus(vcs, lines).error == UnexpectedStatusLine(lines[i])
        && AllExpected(vcs, lines[..i])
    decreases |lines|
  {
    if lines != [] {
      var init := lines[..|lines| - 1];
      ParseStatusFirstError(vcs, init);
      if ParseStatus(vcs, init).Err? {
        var i :| 0 <= i < |init| && Classify(vcs, init[i]) == Unexpected
          && ParseStatus(vcs, init).error == UnexpectedStatusLine(init[i])
          && AllExpected(vcs, init[..i]);
        assert lines[..i] == init[..i];
      } else {
        ParseStatusOkIff(vcs, init);
        assert lines[..|lines| - 1] == init;
      }
    }
  }

  /** Parsing one more line after a successful prefix files it or fails on it. */
  lemma ParseStatusStep(vcs: Vcs, lines: seq<string>, i: nat)
    requires i < |lines| && ParseStatus(vcs, lines[..i]).Ok?
    ensures var acc := ParseStatus(vcs, lines[..i]).value; var c := Classify(vcs, lines[i]);
      && (c.ChangedLine? ==> ParseStatus(vcs, lines[..i + 1]) == Ok(StatusLists(acc.changed + [c.path], acc.untracked)))
      && (c.UntrackedLine? ==> ParseStatus(vcs, lines[..i + 1]) == Ok(StatusLists(acc.changed, acc.untracked + [c.path])))
      && (c.Unexpected? ==> ParseStatus(vcs, lines[..i + 1]) == Err(UnexpectedStatusLine(lines[i])))
  {
    assert lines[..i + 1][..i] == lines[..i];
  }

  /** Parsing a longer input fails the same way once a prefix fails. */
  lemma {:induction false} ParseStatusPrefixErr(vcs: Vcs, lines: seq<string>, k: nat)
    requires k <= |lines| && ParseStatus(vcs, lines[..k]).Err?
    ensures ParseStatus(vcs, lines) == ParseStatus(vcs, lines[..k])
    decreases |lines| - k
  {
    if k < |lines| {
      assert lines[..k + 1][..k] == lines[..k];
      ParseStatusPrefixErr(vcs, lines, k + 1);
    } else {
      assert lines[..k] == lines;
    }
  }

  // ---------------------------------------------------------------------------------
  // Git outgoing

  /** What the branch-line pattern captures: the branch (group 1 without its two-character
      lead) and the revision (group 2, a hash or "->"). */
  datatype BranchLine = BranchLine(branch: string, rev: string)

  /** `\s+(\w+|->)` at position i: the revision it captures. */
  function MatchRevision(line: string, i: nat): (r: Option<string>)
    requires i <= |line|
    ensures r.Some? ==> r.value == "->" || (r.value != [] && forall k :: 0 <= k < |r.value| ==> IsWordChar(r.value[k]))
  {
    if i < |line| && IsSpace(line[i]) then
      var j := SpanWhile(line, i, IsSpace);
      if j < |line| && IsWordChar(line[j]) then Some(line[j..SpanWhile(line, j, IsWordChar)])
      else if j + 2 <= |line| && line[j..j + 2] == "->" then Some("->")
      else None
    else None
  }

  /** `.*?\)` followed by `\s+(\w+|->)`, searched lazily from `from`: the first ')' after
      which the revision matches (`.` does not cross a newline). */
  function LazyParen(line: string, from: nat): Option<BranchLine>
    requires 2 <= from <= |line|
    decreases |line| - from
  {
    if from == |line| then None
    else if line[from] == ')' && MatchRevision(line, from + 1).Some? then
      Some(BranchLine(line[2..from + 1], MatchRevision(line, from + 1).value))
    else if line[from] == '\n' then None
    else LazyParen(line, from + 1)
  }

  /** The prefixes git uses for a checkout that is not on a branch. */
  function DetachedPrefixLength(s: string): nat
  {
    if "HEAD detached" <= s then 13
    else if "detached from" <= s then 13
    else if "no branch, rebasing" <= s then 19
    else 0
  }

  /** `^(\* (?:\((?:HEAD detached|detached from|no branch, rebasing).*?\)|\w+)|  \S+)\s+(\w+|->)`:
      the current branch ("* " then a parenthesised detached description or word
      characters) or another branch ("  " then non-space characters), whitespace, then the
      revision. */
  function ParseBranchLine(line: string): (r: Option<BranchLine>)
    ensures r.Some? && "* " <= line && !("* (" <= line) ==>
      forall k :: 0 <= k < |r.value.branch| ==> IsWordChar(r.value.branch[k])
  {
    if |line| >= 3 && line[..3] == "* (" then
      var n := DetachedPrefixLength(line[3..]);
      if n == 0 then None else LazyParen(line, 3 + n)
    else if |line| >= 3 && line[..2] == "* " && IsWordChar(line[2]) then
      var j := SpanWhile(line, 2, IsWordChar);
      match MatchRevision(line, j)
      case Some(rev) => Some(BranchLine(line[2..j], rev))
      case None => None
    else if |line| >= 3 && line[..2] == "  " && !IsSpace(line[2]) then
      var j := SpanWhile(line, 2, c => !IsSpace(c));
      match MatchRevision(line, j)
      case Some(rev) => Some(BranchLine(line[2..j], rev))
      case None => None
    else None
  }

  /** The sets the branch loop grows: every revision seen, those already on a remote (or
      the detached head), and remote `.WIP` backups (collected, never used). */
  datatype BranchSets = BranchSets(known: set<string>, found: set<string>, wip: set<string>)

  /** A line of `git branch --verbose --all` together with what the pattern made of it. */
  datatype Tagged = Tagged(line: string, parsed: Option<BranchLine>)

  /** Every line paired with its parse. */
  function Tag(lines: seq<string>): (r: seq<Tagged>)
    ensures |r| == |lines|
    ensures forall i :: 0 <= i < |r| ==> r[i] == Tagged(lines[i], ParseBranchLine(lines[i]))
  {
    if lines == [] then [] else Tag(lines[..|lines| - 1]) + [Tagged(lines[|lines| - 1], ParseBranchLine(lines[|lines| - 1]))]
  }

  /** One line applied to the sets. */
  function ScanStep(s: BranchSets, t: Tagged): Result<BranchSets>
  {
    match t.parsed
    case None => Err(UnexpectedBranchLine(t.line))
    case Some(BranchLine(branch, rev)) =>
      if "(HEAD detached" <= branch then Ok(s.(found := s.found + {rev}))
      else if "remotes/" <= branch && EndsWith(branch, "/HEAD") then Ok(s)
      else if rev == "->" then Err(AssertionFailed("revhash != '->'"))
      else
        var s' := s.(known := s.known + {rev});
        if "remotes/" <= branch then
          if EndsWith(branch, ".WIP") then Ok(s'.(wip := s'.wip + {rev}))
          else if !Contains(branch, ".WIP") then Ok(s'.(found := s'.found + {rev}))
          else Ok(s')
        else Ok(s')
  }

  /** All lines applied in order; the first failure stops the scan. */
  function ScanBranches(ts: seq<Tagged>): (r: Result<BranchSets>)
    ensures r.Ok? ==> r.value.wip <= r.value.known
    ensures r.Ok? ==> forall i :: 0 <= i < |ts| ==> ts[i].parsed.Some?
    decreases |ts|
  {
    if ts == [] then Ok(BranchSets({}, {}, {}))
    else
      match ScanBranches(ts[..|ts| - 1])
      case Err(e) => Err(e)
      case Ok(s) => ScanStep(s, ts[|ts| - 1])
  }

  /** Scanning one more line applies one more step. */
  lemma ScanBranchesStep(ts: seq<Tagged>, i: nat)
    requires i < |ts|
    ensures ScanBranches(ts[..i + 1]) ==
      match ScanBranches(ts[..i])
      case Err(e) => Err(e)
      case Ok(s) => ScanStep(s, ts[i])
  {
    assert ts[..i + 1][..i] == ts[..i];
  }

  /** A "(HEAD detached ...)" line: its revision counts as published. */
  predicate Detached(b: BranchLine) { "(HEAD detached" <= b.branch }

  /** The tip of a remote branch that is not a `.WIP` backup: published. */
  predicate RemoteTip(b: BranchLine) {
    "remotes/" <= b.branch && !EndsWith(b.branch, "/HEAD") && !Contains(b.branch, ".WIP")
  }

  /** A local branch (including "detached from" and "no branch, rebasing" checkouts). */
  predicate LocalTip(b: BranchLine) { !Detached(b) && !("remotes/" <= b.branch) }

  /** What one successful step adds: the sets only grow; `known` grows at most by the line's
      revision and never by a detached head's; detached heads and remote tips go to `found`,
      local tips to `known`. */
  lemma ScanStepFacts(s: BranchSets, t: Tagged)
    requires ScanStep(s, t).Ok?
    ensures t.parsed.Some?
    ensures s.known <= ScanStep(s, t).value.known && s.found <= ScanStep(s, t).value.found
    ensures Detached(t.parsed.value) ==> ScanStep(s, t).value.known == s.known
    ensures ScanStep(s, t).value.known <= s.known + {t.parsed.value.rev}
    ensures Detached(t.parsed.value) || RemoteTip(t.parsed.value) ==> t.parsed.value.rev in ScanStep(s, t).value.found
    ensures LocalTip(t.parsed.value) ==> t.parsed.value.rev in ScanStep(s, t).value.known
  {
    var b := t.parsed.value;
    if EndsWith(b.branch, ".WIP") {
      ContainsAt(b.branch, ".WIP", |b.branch| - 4);
    }
  }

  /** Line i parsed, is not a detached head, and carries rev. */
  predicate Carries(ts: seq<Tagged>, i: int, rev: string) {
    0 <= i < |ts| && ts[i].parsed.Some? && !Detached(ts[i].parsed.value) && ts[i].parsed.value.rev == rev
  }

  /** After a successful scan every line parsed, and every known revision is carried by a
      line that is not a detached head. */
  lemma {:induction false} ScanKnownCarried(ts: seq<Tagged>)
    requires ScanBranches(ts).Ok?
    ensures forall i :: 0 <= i < |ts| ==> ts[i].parsed.Some?
    ensures forall rev :: rev in ScanBranches(ts).value.known ==> exists i :: Carries(ts, i, rev)
    decreases |ts|
  {
    if ts != [] {
      var n := |ts| - 1;
      var init := ts[..n];
      ScanKnownCarried(init);
      var s := ScanBranches(init).value;
      ScanStepFacts(s, ts[n]);
      forall rev | rev in ScanBranches(ts).value.known
        ensures exists i :: Carries(ts, i, rev)
      {
        if rev in s.known {
          var i :| Carries(init, i, rev);
          assert Carries(ts, i, rev);
        } else {
          assert Carries(ts, n, rev);
        }
      }
    }
  }

  /** After a successful scan detached heads and remote tips are found and local tips are
      known. So a local tip is probed exactly when no remote tip or detached head shares
      its hash. */
  lemma {:induction false} ScanTipsRecorded(ts: seq<Tagged>)
    requires ScanBranches(ts).Ok?
    ensures forall i :: (0 <= i < |ts| && ts[i].parsed.Some?
      && (Detached(ts[i].parsed.value) || RemoteTip(ts[i].parsed.value))) ==>
      ts[i].parsed.value.rev in ScanBranches(ts).value.found
    ensures forall i :: 0 <= i < |ts| && ts[i].parsed.Some? && LocalTip(ts[i].parsed.value) ==>
      ts[i].parsed.value.rev in ScanBranches(ts).value.known
    decreases |ts|
  {
    if ts != [] {
      var n := |ts| - 1;
      var init := ts[..n];
      ScanTipsRecorded(init);
      var s := ScanBranches(init).value;
      assert ScanBranches(ts) == ScanStep(s, ts[n]);
      ScanStepFacts(s, ts[n]);
      forall i | 0 <= i < n
        ensures ts[i] == init[i]
      { }
    }
  }

  /** Once a prefix of the lines fails, the whole scan fails the same way. */
  lemma {:induction false} ScanPrefixErr(ts: seq<Tagged>, k: nat)
    requires k <= |ts| && ScanBranches(ts[..k]).Err?
    ensures ScanBranches(ts) == ScanBranches(ts[..k])
    decreases |ts| - k
  {
    if k < |ts| {
      assert ts[..k + 1][..k] == ts[..k];
      ScanPrefixErr(ts, k + 1);
    } else {
      assert ts[..k] == ts;
    }
  }

  /** The `git branch --all --contains` output read line by line: each line must start with
      "  " or "* "; the answer is whether a branch starting with "remotes/origin/" comes
      before the first malformed line. */
  function Probe(lines: seq<string>): (r: Result<bool>)
    ensures r == Ok(false) ==> forall i :: 0 <= i < |lines| ==>
      |lines[i]| >= 2 && !("remotes/origin/" <= FirstToken(lines[i][2..]))
  {
    if lines == [] then Ok(false)
    else if !(|lines[0]| >= 2 && (lines[0][..2] == "  " || lines[0][..2] == "* ")) then
      Err(AssertionFailed("match[:2] in ('  ', '* ')"))
    else if "remotes/origin/" <= FirstToken(lines[0][2..]) then Ok(true)
    else Probe(lines[1..])
  }

  /** Some branch under remotes/origin/ contains the revision. */
  predicate Published(contains: string -> string, rev: string) {
    Probe(CmdToLines(contains(rev))) == Ok(true)
  }

  /** No branch under remotes/origin/ contains the revision. */
  predicate Unpublished(contains: string -> string, rev: string) {
    Probe(CmdToLines(contains(rev))) == Ok(false)
  }

  /** With every probed line well formed, a probe answers whether some listed branch
      starts with "remotes/origin/". */
  lemma {:induction false} ProbeSpec(lines: seq<string>)
    requires forall i :: 0 <= i < |lines| ==> |lines[i]| >= 2 && (lines[i][..2] == "  " || lines[i][..2] == "* ")
    ensures Probe(lines) == Ok(exists i :: 0 <= i < |lines| && "remotes/origin/" <= FirstToken(lines[i][2..]))
  {
    if lines != [] {
      ProbeSpec(lines[1..]);
      if !("remotes/origin/" <= FirstToken(lines[0][2..])) {
        assert (exists i :: 0 <= i < |lines| && "remotes/origin/" <= FirstToken(lines[i][2..]))
          == (exists i :: 0 <= i < |lines[1..]| && "remotes/origin/" <= FirstToken(lines[1..][i][2..]));
      }
    }
  }

  /** One pass of the `git branch` loop: the line parsed, then detached heads go to
      `found`, remote HEAD pointers are skipped, a "->" revision fails the assertion, and
      any other revision is known, with remote tips found and remote `.WIP` backups WIP. */
  method ScanLine(s: BranchSets, line: string) returns (r: Result<BranchSets>)
    ensures r == ScanStep(s, Tagged(line, ParseBranchLine(line)))
  {
    var m := ParseBranchLine(line);
    if m.None? {
      return Err(UnexpectedBranchLine(line));
    }
    var known, found, wip := s.known, s.found, s.wip;
    var branch, revhash := m.value.branch, m.value.rev;
    if "(HEAD detached" <= branch {
      return Ok(BranchSets(known, found + {revhash}, wip));
    }
    if "remotes/" <= branch && EndsWith(branch, "/HEAD") {
      return Ok(s);
    }
    if revhash == "->" {
      return Err(AssertionFailed("revhash != '->'"));
    }
    known := known + {revhash};
    if "remotes/" <= branch {
      if EndsWith(branch, ".WIP") {
        wip := wip + {revhash};
      } else if !Contains(branch, ".WIP") {
        found := found + {revhash};
      }
    }
    r := Ok(BranchSets(known, found, wip));
  }

  /** The first loop of `getoutgoing`: the sets grown over the lines of
      `git branch --verbose --all`. */
  method CollectBranches(lines: seq<string>) returns (r: Result<BranchSets>)
    ensures r == ScanBranches(Tag(lines))
  {
    ghost var ts := Tag(lines);
    var known: set<string> := {};
    var found: set<string> := {};
    var wip: set<string> := {};
    var i := 0;
    while i < |lines|
      invariant 0 <= i <= |lines|
      invariant ScanBranches(ts[..i]) == Ok(BranchSets(known, found, wip))
    {
      var line := lines[i];
      ScanBranchesStep(ts, i);
      assert ts[i] == Tagged(line, ParseBranchLine(line));
      var next := ScanLine(BranchSets(known, found, wip), line);
      if next.Err? {
        ScanPrefixErr(ts, i + 1);
        return Err(next.error);
      }
      known, found, wip := next.value.known, next.value.found, next.value.wip;
      i := i + 1;
    }
    assert ts[..|lines|] == ts;
    r := Ok(BranchSets(known, found, wip));
  }

  /** The inner loop of `getoutgoing` for one revision: read the `--contains` lines until
      one names a remotes/origin/ branch. */
  method ProbeRevision(out: seq<string>) returns (r: Result<bool>)
    ensures r == Probe(out)
  {
    var j := 0;
    while j < |out|
      invariant 0 <= j <= |out|
      invariant Probe(out) == Probe(out[j..])
    {
      var match_ := out[j];
      if !(|match_| >= 2 && (match_[..2] == "  " || match_[..2] == "* ")) {
        return Err(AssertionFailed("match[:2] in ('  ', '* ')"));
      }
      var branch := FirstToken(match_[2..]);
      if "remotes/origin/" <= branch {
        return Ok(true);
      }
      assert out[j..][1..] == out[j + 1..];
      j := j + 1;
    }
    r := Ok(false);
  }

  /** The answers `getoutgoing` may give for git: the scan's error; else "1+" only with an
      unpublished revision among `known - found`, 0 only when all of them are published, a
      probe's error only when some probe fails. */
  predicate GitOutgoingAllows(branchOutput: string, contains: string -> string, r: Result<Outgoing>) {
    (r.Ok? ==> r.value == Zero || r.value == OnePlus)
    && (ScanBranches(Tag(CmdToLines(branchOutput))).Err? ==> r == Err(ScanBranches(Tag(CmdToLines(branchOutput))).error))
    && (ScanBranches(Tag(CmdToLines(branchOutput))).Ok? ==>
      var s := ScanBranches(Tag(CmdToLines(branchOutput))).value;
      && (r == Ok(OnePlus) ==> exists rev :: rev in s.known - s.found && Unpublished(contains, rev))
      && (r == Ok(Zero) ==> forall rev :: rev in s.known - s.found ==> Published(contains, rev))
      && (r.Err? ==> exists rev :: rev in s.known - s.found && Probe(CmdToLines(contains(rev))).Err?))
  }

  /** `GitInspector.getoutgoing`: scan `git branch --verbose --all`, then probe every
      revision in `known - found` (in set order, which Python leaves unspecified) with
      `git branch --all --contains`. The answer is "1+" as soon as a probed revision is on
      no remotes/origin/ branch, else 0. */
  method GitOutgoing(branchOutput: string, contains: string -> string) returns (r: Result<Outgoing>)
    ensures GitOutgoingAllows(branchOutput, contains, r)
  {
    var sets := CollectBranches(CmdToLines(branchOutput));
    if sets.Err? {
      return Err(sets.error);
    }
    var known, found := sets.value.known, sets.value.found;
    var todo := known - found;
    while todo != {}
      invariant todo <= known - found
      invariant forall rev :: rev in (known - found) - todo ==> Published(contains, rev)
      decreases todo
    {
      var rev :| rev in todo;
      var revfound := ProbeRevision(CmdToLines(contains(rev)));
      if revfound.Err? {
        return Err(revfound.error);
      }
      if !revfound.value {
        return Ok(OnePlus);
      }
      todo := todo - {rev};
    }
    r := Ok(Zero);
  }

  // ---------------------------------------------------------------------------------
  // Mercurial outgoing

  /** How `hg outgoing` ended: killed by the 10-second timeout, or exited with a status
      and its combined stdout/stderr. */
  datatype HgRun = TimedOut | Exited(code: int, output: string)

  /** The timeout, in seconds, given to `hg outgoing`. */
  const HgRemoteTimeout: nat := 10

  const NodenameError: string := "abort: error: nodename nor servname provided, or not known\n"
  const NoResponseError: string := "abort: no suitable response from remote hg!\n"
  const NoChangesFound: string := "no changes found\n"

  /** `HgInspector.getoutgoing`: a timeout is "?", a host that cannot be reached is "-",
      "no changes found" is 0, success is "1+", any other failure is re-raised. */
  function HgOutgoing(run: HgRun): (r: Result<Outgoing>)
    ensures r.Ok? ==> r.value in {Zero, OnePlus, Unknown, Unreachable}
    ensures r == Ok(Unknown) <==> run.TimedOut?
    ensures r == Ok(OnePlus) <==> run.Exited? && run.code == 0
    ensures r == Ok(Unreachable) <==>
      run.Exited? && run.code != 0 && (EndsWith(run.output, NodenameError) || EndsWith(run.output, NoResponseError))
    ensures r.Err? <==>
      run.Exited? && run.code != 0 && !EndsWith(run.output, NodenameError)
      && !EndsWith(run.output, NoResponseError) && !EndsWith(run.output, NoChangesFound)
    ensures r.Err? ==> r.error == OutgoingFailed(run.output)
  {
    match run
    case TimedOut => Ok(Unknown)
    case Exited(code, output) =>
      if code == 0 then Ok(OnePlus)
      else if EndsWith(output, NodenameError) then Ok(Unreachable)
      else if EndsWith(output, NoResponseError) then Ok(Unreachable)
      else if EndsWith(output, NoChangesFound) then Ok(Zero)
      else Err(OutgoingFailed(output))
  }

  // ---------------------------------------------------------------------------------
  // Inspector objects

  /** Everything the inspectors read from outside: command outputs and GitPython answers. */
  datatype Outputs = Outputs(
    activeBranch: Option<string>,   // GitPython `active_branch.name`; None for a detached head
    hgBranch: string,               // `hg branch`
    status: string,                 // `git status --short` or `hg status`
    gitUntracked: seq<string>,      // GitPython `untracked_files`
    branches: string,               // `git branch --verbose --all`
    contains: string -> string,     // `git branch --all --contains <rev>`, per revision
    hgOutgoing: HgRun,              // `hg outgoing`
    stashList: string)              // `git stash list` or `hg shelve --list`

  /** Which inspector query was asked. */
  datatype Query = BranchQuery | ChangedQuery | UntrackedQuery | OutgoingQuery | StashQuery

  /** The number of stashes (git) or shelves (mercurial): the non-blank output lines. */
  function StashCount(output: string): (n: nat)
    ensures n == |set i | 0 <= i < |Split(output, '\n')| && RStrip(Split(output, '\n')[i]) != []|
  {
    NonBlankCount(Split(output, '\n'));
    |CmdToLines(output)|
  }

  /** `GitInspector` / `HgInspector` for one working tree. */
  class Inspector {
    const vcs: Vcs
    const path: string
    /** `_statuslines`: the parsed status, once computed. */
    var statusMemo: Option<StatusLists>
    /** The queries answered so far, oldest first. */
    ghost var calls: seq<Query>

    /** Whether `outgoing` is worth its own long-lived cache entry: true for mercurial,
        which contacts the remote, false for git. */
    predicate OutgoingExpensive() { vcs == Hg }

    constructor (vcs: Vcs, path: string)
      ensures this.vcs == vcs && this.path == path
      ensures statusMemo == None && calls == []
    {
      this.vcs := vcs;
      this.path := path;
      statusMemo := None;
      calls := [];
    }

    /** `statuslines`: parsed at most once; a failed parse is not remembered. */
    method StatusLines(out: Outputs) returns (r: Result<StatusLists>)
      modifies this
      ensures calls == old(calls)
      ensures old(statusMemo).Some? ==> r == Ok(old(statusMemo).value) && statusMemo == old(statusMemo)
      ensures old(statusMemo).None? ==> r == ParseStatus(vcs, CmdToLines(out.status))
      ensures old(statusMemo).None? ==> statusMemo == (if r.Ok? then Some(r.value) else None)
    {
      if statusMemo.Some? {
        return Ok(statusMemo.value);
      }
      var lines := CmdToLines(out.status);
      var changed: seq<string> := [];
      var untracked: seq<string> := [];
      var i := 0;
      while i < |lines|
        invariant 0 <= i <= |lines|
        invariant ParseStatus(vcs, lines[..i]) == Ok(StatusLists(changed, untracked))
        invariant calls == old(calls) && statusMemo == None
      {
        var line := lines[i];
        ParseStatusStep(vcs, lines, i);
        match Classify(vcs, line) {
          case ChangedLine(p) =>
            changed := changed + [p];
          case UntrackedLine(p) =>
            untracked := untracked + [p];
          case Unexpected =>
            ParseStatusPrefixErr(vcs, lines, i + 1);
            return Err(UnexpectedStatusLine(line));
        }
        i := i + 1;
      }
      assert lines[..|lines|] == lines;
      statusMemo := Some(StatusLists(changed, untracked));
      r := Ok(StatusLists(changed, untracked));
    }

    /** `getbranch`: git's active branch (None when detached); mercurial's stripped
        `hg branch` output, which must not be empty. */
    method Branch(out: Outputs) returns (r: Result<Option<string>>)
      modifies this
      ensures calls == old(calls) + [BranchQuery] && statusMemo == old(statusMemo)
      ensures vcs == Git ==> r == Ok(out.activeBranch)
      ensures vcs == Hg ==> (r.Ok? <==> Strip(out.hgBranch) != [])
      ensures vcs == Hg && r.Ok? ==> r.value == Some(Strip(out.hgBranch))
      ensures r.Err? ==> r.error == AssertionFailed("len(output)")
    {
      calls := calls + [BranchQuery];
      if vcs == Git {
        return Ok(out.activeBranch);
      }
      var output := Strip(out.hgBranch);
      if output == [] {
        return Err(AssertionFailed("len(output)"));
      }
      r := Ok(Some(output));
    }

    /** `getchanged`: the first list of the status lines. */
    method Changed(out: Outputs) returns (r: Result<seq<string>>)
      modifies this
      ensures calls == old(calls) + [ChangedQuery]
      ensures old(statusMemo).Some? ==> r == Ok(old(statusMemo).value.changed) && statusMemo == old(statusMemo)
      ensures old(statusMemo).None? ==>
        (r.Ok? <==> ParseStatus(vcs, CmdToLines(out.status)).Ok?)
        && (r.Ok? ==> (r.value == ParseStatus(vcs, CmdToLines(out.status)).value.changed
                       && statusMemo == Some(ParseStatus(vcs, CmdToLines(out.status)).value)))
        && (r.Err? ==> statusMemo == None && r.error == ParseStatus(vcs, CmdToLines(out.status)).error)
    {
      var s := StatusLines(out);
      calls := calls + [ChangedQuery];
      if s.Err? {
        return Err(s.error);
      }
      r := Ok(s.value.changed);
    }

    /** `getuntracked`: GitPython's list for git, the second status list for mercurial. */
    method Untracked(out: Outputs) returns (r: Result<seq<string>>)
      modifies this
      ensures calls == old(calls) + [UntrackedQuery]
      ensures vcs == Git ==> r == Ok(out.gitUntracked) && statusMemo == old(statusMemo)
      ensures vcs == Hg && old(statusMemo).Some? ==> r == Ok(old(statusMemo).value.untracked) && statusMemo == old(statusMemo)
      ensures vcs == Hg && old(statusMemo).None? ==>
        (r.Ok? <==> ParseStatus(vcs, CmdToLines(out.status)).Ok?)
        && (r.Ok? ==> (r.value == ParseStatus(vcs, CmdToLines(out.status)).value.untracked
                       && statusMemo == Some(ParseStatus(vcs, CmdToLines(out.status)).value)))
        && (r.Err? ==> statusMemo == None && r.error == ParseStatus(vcs, CmdToLines(out.status)).error)
    {
      if vcs == Git {
        calls := calls + [UntrackedQuery];
        return Ok(out.gitUntracked);
      }
      var s := StatusLines(out);
      calls := calls + [UntrackedQuery];
      if s.Err? {
        return Err(s.error);
      }
      r := Ok(s.value.untracked);
    }

    /** `getoutgoing` */
    method Outgoing(out: Outputs) returns (r: Result<Outgoing>)
      modifies this
      ensures calls == old(calls) + [OutgoingQuery] && statusMemo == old(statusMemo)
      ensures vcs == Hg ==> r == HgOutgoing(out.hgOutgoing)
      ensures vcs == Git ==> GitOutgoingAllows(out.branches, out.contains, r)
    {
      calls := calls + [OutgoingQuery];
      if vcs == Hg {
        return HgOutgoing(out.hgOutgoing);
      }
      r := GitOutgoing(out.branches, out.contains);
    }

    /** `getstashcount` */
    method Stashes(out: Outputs) returns (n: nat)
      modifies this
      ensures calls == old(calls) + [StashQuery] && statusMemo == old(statusMemo)
      ensures n == StashCount(out.stashList)
    {
      calls := calls + [StashQuery];
      n := |CmdToLines(out.stashList)|;
    }
  }
}
