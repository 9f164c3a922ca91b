/** The configuration file: one declaration per line, `KEYWORD PATH [FLAG...]`, read once
    into an in-memory cache of workspaces and single projects. `glob` and the combined
    `expandvars`/`expanduser` are parameters. */
module Config {
  import opened Common
  import opened Strings

  /** A configured entry: its name (the basename of the match), its path and its flags. */
  datatype Configured = Configured(name: string, path: string, flags: seq<string>)

  /** A workspace as the cache keeps it, under its name. */
  datatype WsEntry = WsEntry(path: string, flags: seq<string>)

  /** The two collections `_populateconfig` fills: `WORKSPACES` and `SINGLES`. */
  datatype Declared = Declared(workspaces: map<string, WsEntry>, singles: seq<Configured>)

  const NoDeclarations: Declared := Declared(map[], [])

  // ---------------------------------------------------------------------------------
  // One line

  /** `re.match(r'^"[^"]+"|\S+', remaining).group()`: a double-quoted run of at least one
      character without inner quotes, or else the leading run of non-space characters;
      None when neither matches (the remainder starts with whitespace). */
  function PathToken(rem: string): (r: Option<string>)
    ensures r.Some? ==> r.value != [] && r.value <= rem
    ensures r.None? <==> rem == [] || IsSpace(rem[0])
    ensures r.Some? && !(rem[0] == '"' && |rem| >= 2 && rem[1] != '"' && '"' in rem[1..]) ==>
      (forall k :: 0 <= k < |r.value| ==> !IsSpace(r.value[k])) && (|r.value| == |rem| || IsSpace(rem[|r.value|]))
    ensures r.Some? && rem[0] == '"' && |rem| >= 2 && rem[1] != '"' && '"' in rem[1..] ==>
      |r.value| >= 3 && r.value[0] == '"' && r.value[|r.value| - 1] == '"' && '"' !in r.value[1..|r.value| - 1]
  {
    if |rem| >= 2 && rem[0] == '"' && rem[1] != '"' && '"' in rem[1..] then
      var j := IndexOf(rem[1..], '"');
      assert rem[1..][..j] == rem[1..j + 1];
      Some(rem[..j + 2])
    else if rem != [] && !IsSpace(rem[0]) then
      Some(FirstToken(rem))
    else None
  }

  /** `path[1:-1]`: the token without its first and last character. */
  function Unquote(token: string): (r: string)
    ensures |token| >= 2 ==> token == [token[0]] + r + [token[|token| - 1]]
    ensures |token| < 2 ==> r == []
  {
    if |token| >= 2 then token[1..|token| - 1] else []
  }

  /** The non-empty pieces of a list, in order. */
  function NonEmpty(parts: seq<string>): (r: seq<string>)
    ensures forall f :: f in r <==> f in parts && f != []
  {
    if parts == [] then []
    else if parts[0] == [] then NonEmpty(parts[1..])
    else [parts[0]] + NonEmpty(parts[1..])
  }

  /** A list whose pieces are all non-empty is kept whole. */
  lemma {:induction false} NonEmptyKeepsAll(parts: seq<string>)
    requires forall i :: 0 <= i < |parts| ==> parts[i] != []
    ensures NonEmpty(parts) == parts
    decreases |parts|
  {
    if parts != [] {
      NonEmptyKeepsAll(parts[1..]);
      assert parts == [parts[0]] + parts[1..];
    }
  }

  /** `[f for f in s.split(' ') if f]`: the space-separated words of s. */
  function Words(s: string): (r: seq<string>)
    ensures forall f :: f in r ==> ' ' !in f
    ensures forall f :: f in r <==> f != [] && f in Split(s, ' ')
  {
    NonEmpty(Split(s, ' '))
  }

  /** Words written out with single spaces between them are read back as they were. */
  lemma WordsJoin(words: seq<string>)
    requires forall i :: 0 <= i < |words| ==> words[i] != [] && ' ' !in words[i]
    ensures Words(Join(" ", words)) == words
  {
    if words != [] {
      assert " " == [' '];
      SplitJoin(' ', words);
      NonEmptyKeepsAll(words);
    } else {
      assert Split("", ' ') == [""];
      assert NonEmpty([""]) == NonEmpty([""][1..]);
    }
  }

  /** The only flags a declaration may carry: `IGNORE=<name>` and `SPOTLIGHT`. */
  predicate ValidFlag(f: string) { "IGNORE=" <= f || f == "SPOTLIGHT" }

  /** The index of the first flag that is not valid, or |flags|. */
  function FirstInvalidFlag(flags: seq<string>): (k: nat)
    ensures k <= |flags|
    ensures forall i :: 0 <= i < k ==> ValidFlag(flags[i])
    ensures k < |flags| ==> !ValidFlag(flags[k])
  {
    if flags == [] then 0
    else if !ValidFlag(flags[0]) then 0
    else 1 + FirstInvalidFlag(flags[1..])
  }

  /** What a non-comment line says: keyword, expanded path and flags. */
  datatype Parsed = Parsed(keyword: string, path: string, flags: seq<string>)

  /** `_readcfgline` up to the keyword dispatch: the keyword is everything before the first
      space (a line without one fails); the path token follows that space; the flags are
      the words after the token; a quoted token loses its first and last character; the
      path is then expanded. Every flag is checked before the keyword is looked at. */
  function ParseLine(number: nat, line: string, expand: string -> string): (r: Result<Parsed>)
    ensures ' ' !in line ==> r == Err(NoSpaceInLine(number))
    ensures r.Ok? ==> ' ' in line && r.value.keyword == Before(line, ' ') && forall f :: f in r.value.flags ==> ValidFlag(f)
    ensures ' ' in line ==>
      var rem := line[|Before(line, ' ')| + 1..];
      && (PathToken(rem).None? ==> r == Err(AssertionFailed("pathmatch is not None")))
      && (PathToken(rem).Some? ==>
            var token := PathToken(rem).value;
            var flags := Words(rem[|token|..]);
            && (FirstInvalidFlag(flags) < |flags| ==> r == Err(InvalidFlag(number, flags[FirstInvalidFlag(flags)])))
            && (FirstInvalidFlag(flags) == |flags| ==> r.Ok? && r.value.flags == flags)
            && (r.Ok? && "\"" <= token ==> r.value.path == expand(Unquote(token)))
            && (r.Ok? && !("\"" <= token) ==> r.value.path == expand(token)))
  {
    if ' ' !in line then Err(NoSpaceInLine(number))
    else
      var keyword := Before(line, ' ');
      var remaining := line[|keyword| + 1..];
      match PathToken(remaining)
      case None => Err(AssertionFailed("pathmatch is not None"))
      case Some(token) =>
        var flags := Words(remaining[|token|..]);
        var path := expand(if "\"" <= token then Unquote(token) else token);
        var k := FirstInvalidFlag(flags);
        if k < |flags| then Err(InvalidFlag(number, flags[k]))
        else Ok(Parsed(keyword, path, flags))
  }

  /** The basename of every match. */
  function Basenames(matches: seq<string>): seq<string>
  {
    seq(|matches|, i requires 0 <= i < |matches| => Basename(matches[i]))
  }


  /** `WORKSPACES[name] = (m, flags)` for each match m and its basename, in order. */
  function AddWorkspaces(ws: map<string, WsEntry>, names: seq<string>, matches: seq<string>, flags: seq<string>): map<string, WsEntry>
    requires |names| == |matches|
  {
    if matches == [] then ws
    else
      var n := |matches| - 1;
      AddWorkspaces(ws, names[..n], matches[..n], flags)[names[n] := WsEntry(matches[n], flags)]
  }

  /** One more match adds one more entry. */
  lemma AddWorkspacesStep(ws: map<string, WsEntry>, names: seq<string>, matches: seq<string>, flags: seq<string>, i: nat)
    requires |names| == |matches| && i < |matches|
    ensures AddWorkspaces(ws, names[..i + 1], matches[..i + 1], flags)
      == AddWorkspaces(ws, names[..i], matches[..i], flags)[names[i] := WsEntry(matches[i], flags)]
  {
    assert matches[..i + 1][..i] == matches[..i] && names[..i + 1][..i] == names[..i];
  }

  /** `SINGLES.append((basename(m), m, flags))` for each match m, in order. */
  function AsSingles(matches: seq<string>, flags: seq<string>): (r: seq<Configured>)
    ensures |r| == |matches|
    ensures forall i :: 0 <= i < |r| ==> r[i] == Configured(Basename(matches[i]), matches[i], flags)
  {
    if matches == [] then []
    else
      var n := |matches| - 1;
      var prefix := matches[..n];
      assert forall i :: 0 <= i < n ==> prefix[i] == matches[i];
      AsSingles(prefix, flags) + [Configured(Basename(matches[n]), matches[n], flags)]
  }

  /** One more match appends one more entry. */
  lemma AsSinglesStep(matches: seq<string>, flags: seq<string>, i: nat)
    requires i < |matches|
    ensures AsSingles(matches[..i + 1], flags)
      == AsSingles(matches[..i], flags) + [Configured(Basename(matches[i]), matches[i], flags)]
  {
    assert matches[..i + 1][..i] == matches[..i];
  }

  /** The same step after the entries already held. */
  lemma AppendedSinglesStep(start: seq<Configured>, matches: seq<string>, flags: seq<string>, i: nat)
    requires i < |matches|
    ensures start + AsSingles(matches[..i + 1], flags)
      == start + AsSingles(matches[..i], flags) + [Configured(Basename(matches[i]), matches[i], flags)]
  {
    AsSinglesStep(matches, flags, i);
  }

  /** The FORGET loop: the first entry whose path equals `path` is removed. */
  function RemoveFirstWithPath(singles: seq<Configured>, path: string): seq<Configured>
  {
    if singles == [] then []
    else if singles[0].path == path then singles[1..]
    else [singles[0]] + RemoveFirstWithPath(singles[1..], path)
  }

  /** `_readcfgline(number, line, cache)` as a function of the declarations so far. */
  function ApplyLine(d: Declared, number: nat, line: string, expand: string -> string, glob: string -> seq<string>): (r: Result<Declared>)
    ensures "#" <= line ==> r == Ok(d)
    ensures r.Ok? ==> r.value.workspaces == d.workspaces || r.value.singles == d.singles
    ensures !("#" <= line) && ParseLine(number, line, expand).Err? ==> r == Err(ParseLine(number, line, expand).error)
    ensures !("#" <= line) && ParseLine(number, line, expand).Ok? ==>
      (r.Ok? <==> ParseLine(number, line, expand).value.keyword in {"WORKSPACE", "PROJECT", "FORGET"})
    ensures r.Ok? && !("#" <= line) ==> ' ' in line
  {
    if "#" <= line then Ok(d)
    else
      match ParseLine(number, line, expand)
      case Err(e) => Err(e)
      case Ok(Parsed(keyword, path, flags)) =>
        if keyword == "WORKSPACE" then Ok(d.(workspaces := AddWorkspaces(d.workspaces, Basenames(glob(path)), glob(path), flags)))
        else if keyword == "PROJECT" then Ok(d.(singles := d.singles + AsSingles(glob(path), flags)))
        else if keyword == "FORGET" then Ok(d.(singles := RemoveFirstWithPath(d.singles, path)))
        else Err(InvalidLine(number))
  }

  /** The declarations after reading some lines, and the error that stopped the reading. */
  datatype Outcome = Outcome(declared: Declared, error: Option<Error>)

  /** The reading loop of `_populateconfig` over the file's physical lines: each line is
      stripped, blank ones are skipped, and the count of physical lines read so far is the
      number a line reports. Reading stops at the first error and keeps what was declared
      before it. */
  function Load(lines: seq<string>, expand: string -> string, glob: string -> seq<string>): (r: Outcome)
    ensures r.error.None? ==> forall k :: 0 <= k < |lines| ==> Accepted(lines[k])
  {
    if lines == [] then Outcome(NoDeclarations, None)
    else
      AcceptedSnoc(lines, lines[..|lines| - 1]);
      LoadStep(Load(lines[..|lines| - 1], expand, glob), |lines|, lines[|lines| - 1], expand, glob)
  }

  /** Lines all accepted before the last one, and the last one, are all accepted. */
  lemma AcceptedSnoc(lines: seq<string>, init: seq<string>)
    requires lines != [] && init == lines[..|lines| - 1]
    ensures (forall k :: 0 <= k < |init| ==> Accepted(init[k])) && Accepted(lines[|lines| - 1])
      ==> forall k :: 0 <= k < |lines| ==> Accepted(lines[k])
  {
    assert forall k :: 0 <= k < |init| ==> init[k] == lines[k];
  }

  /** The shape of a line a successful read went through: blank, a comment, or a keyword
      followed by a space. */
  predicate Accepted(line: string) {
    Strip(line) == [] || "#" <= Strip(line) || ' ' in Strip(line)
  }

  /** Reading physical line `number` after the outcome o of the lines before it. */
  function LoadStep(o: Outcome, number: nat, line: string, expand: string -> string, glob: string -> seq<string>): (r: Outcome)
    ensures r.error.None? ==> o.error.None?
    ensures r.error.None? ==> Accepted(line)
  {
    var stripped := Strip(line);
    if o.error.Some? || stripped == [] then o
    else
      match ApplyLine(o.declared, number, stripped, expand, glob)
      case Ok(d) => Outcome(d, None)
      case Err(e) => Outcome(o.declared, Some(e))
  }

  // ---------------------------------------------------------------------------------
  // Properties of one line

  /** A comment or a line without content changes nothing, and the line still counts. */
  lemma BlankOrCommentChangesNothing(lines: seq<string>, line: string, expand: string -> string, glob: string -> seq<string>)
    requires Strip(line) == [] || "#" <= Strip(line)
    ensures Load(lines + [line], expand, glob) == Load(lines, expand, glob)
  {
    assert (lines + [line])[..|lines|] == lines;
    var o := Load(lines, expand, glob);
    assert Load(lines + [line], expand, glob) == LoadStep(o, |lines| + 1, line, expand, glob);
    if o.error.None? && Strip(line) != [] {
      CommentChangesNothing(o.declared, |lines| + 1, Strip(line), expand, glob);
    }
  }

  lemma CommentChangesNothing(d: Declared, number: nat, line: string, expand: string -> string, glob: string -> seq<string>)
    requires "#" <= line
    ensures ApplyLine(d, number, line, expand, glob) == Ok(d)
  { }

  /** Flags are checked before the keyword: a bad flag is reported on any keyword, FORGET
      included, and names the first bad flag. */
  lemma {:induction false} BadFlagWins(number: nat, line: string, expand: string -> string, glob: string -> seq<string>, d: Declared)
    requires !("#" <= line) && ' ' in line
    requires PathToken(line[|Before(line, ' ')| + 1..]).Some?
    requires var rem := line[|Before(line, ' ')| + 1..];
      exists f :: f in Words(rem[|PathToken(rem).value|..]) && !ValidFlag(f)
    ensures ApplyLine(d, number, line, expand, glob).Err?
    ensures ApplyLine(d, number, line, expand, glob).error.InvalidFlag?
    ensures ApplyLine(d, number, line, expand, glob).error.number == number
  {
    var rem := line[|Before(line, ' ')| + 1..];
    var flags := Words(rem[|PathToken(rem).value|..]);
    var f :| f in flags && !ValidFlag(f);
    var i :| 0 <= i < |flags| && flags[i] == f;
    assert FirstInvalidFlag(flags) <= i;
  }

  /** Match i is the last one whose basename is `name`. */
  predicate LastMatchFor(names: seq<string>, i: int, name: string) {
    0 <= i < |names| && names[i] == name
    && forall j :: i < j < |names| ==> names[j] != name
  }

  /** A later WORKSPACE match with the same basename overwrites an earlier one: the entry
      of a basename is its last match. */
  lemma {:induction false} WorkspacesLastMatchWins(ws: map<string, WsEntry>, names: seq<string>, matches: seq<string>,
                                                   flags: seq<string>, i: nat, name: string)
    requires |names| == |matches| && LastMatchFor(names, i, name)
    ensures name in AddWorkspaces(ws, names, matches, flags)
    ensures AddWorkspaces(ws, names, matches, flags)[name] == WsEntry(matches[i], flags)
    decreases |matches|
  {
    var n := |matches| - 1;
    if i < n {
      assert names[n] != name;
      assert LastMatchFor(names[..n], i, name);
      WorkspacesLastMatchWins(ws, names[..n], matches[..n], flags, i, name);
    }
  }

  /** A name no WORKSPACE match has keeps its entry, or its absence. */
  lemma {:induction false} WorkspacesOtherNames(ws: map<string, WsEntry>, names: seq<string>, matches: seq<string>,
                                                flags: seq<string>, name: string)
    requires |names| == |matches| && name !in names
    ensures name in AddWorkspaces(ws, names, matches, flags) <==> name in ws
    ensures name in ws ==> AddWorkspaces(ws, names, matches, flags)[name] == ws[name]
    decreases |matches|
  {
    if matches != [] {
      var n := |matches| - 1;
      assert names[n] in names;
      assert name !in names[..n];
      WorkspacesOtherNames(ws, names[..n], matches[..n], flags, name);
    }
  }

  /** FORGET with no entry of that path changes nothing. */
  lemma {:induction false} ForgetWithoutMatch(singles: seq<Configured>, path: string)
    requires forall s :: s in singles ==> s.path != path
    ensures RemoveFirstWithPath(singles, path) == singles
  {
    if singles != [] {
      assert singles[0] in singles;
      assert forall s :: s in singles[1..] ==> s in singles;
      ForgetWithoutMatch(singles[1..], path);
    }
  }

  /** FORGET removes exactly the first entry with the path; every other entry stays, in
      order. */
  lemma {:induction false} ForgetRemovesFirst(singles: seq<Configured>, path: string, k: nat)
    requires k < |singles| && singles[k].path == path
    requires forall j :: 0 <= j < k ==> singles[j].path != path
    ensures RemoveFirstWithPath(singles, path) == singles[..k] + singles[k + 1..]
  {
    if k > 0 {
      var tail := singles[1..];
      assert forall j :: 0 <= j < k - 1 ==> tail[j] == singles[j + 1];
      ForgetRemovesFirst(tail, path, k - 1);
      assert tail[..k - 1] + tail[k..] == singles[1..k] + singles[k + 1..];
      assert [singles[0]] + singles[1..k] == singles[..k];
    }
  }

  /** Line k (counted from 0) stops a reading with error e and declarations d: the lines
      before it read without error and declare d, it has content, and applying it gives e. */
  predicate FailsAt(lines: seq<string>, k: int, e: Error, d: Declared, expand: string -> string, glob: string -> seq<string>)
  {
    && 0 <= k < |lines|
    && Load(lines[..k], expand, glob) == Outcome(d, None)
    && Strip(lines[k]) != []
    && ApplyLine(d, k + 1, Strip(lines[k]), expand, glob) == Err(e)
  }

  /** The error a stopped reading reports is the error of its first failing line, given
      that line's physical number, and the declarations are those made before that line. */
  lemma {:induction false} LoadStopsAtFirstError(lines: seq<string>, expand: string -> string, glob: string -> seq<string>)
    requires Load(lines, expand, glob).error.Some?
    ensures exists k :: FailsAt(lines, k, Load(lines, expand, glob).error.value, Load(lines, expand, glob).declared, expand, glob)
  {
    var n := |lines| - 1;
    var o := Load(lines[..n], expand, glob);
    if o.error.Some? {
      LoadKeepsError(lines, n, expand, glob);
      LoadStopsAtFirstError(lines[..n], expand, glob);
      var k :| FailsAt(lines[..n], k, o.error.value, o.declared, expand, glob);
      FailsAtExtends(lines, n, k, o.error.value, o.declared, expand, glob);
    } else {
      LoadNext(lines, n, o.declared, expand, glob);
      assert FailsAt(lines, n, Load(lines, expand, glob).error.value, Load(lines, expand, glob).declared, expand, glob);
    }
  }

  /** A failure found in the first lines is a failure of all of them. */
  lemma FailsAtExtends(lines: seq<string>, n: nat, k: int, e: Error, d: Declared, expand: string -> string, glob: string -> seq<string>)
    requires n <= |lines|
    requires FailsAt(lines[..n], k, e, d, expand, glob)
    ensures FailsAt(lines, k, e, d, expand, glob)
  {
    assert lines[..n][..k] == lines[..k];
    assert lines[..n][k] == lines[k];
  }

  /** Reading one more line after an error-free prefix that declared d. */
  lemma LoadNext(lines: seq<string>, i: nat, d: Declared, expand: string -> string, glob: string -> seq<string>)
    requires i < |lines| && Load(lines[..i], expand, glob) == Outcome(d, None)
    ensures Load(lines[..i + 1], expand, glob) == LoadStep(Outcome(d, None), i + 1, lines[i], expand, glob)
  {
    assert lines[..i + 1][..i] == lines[..i];
    assert lines[..i + 1][i] == lines[i];
  }

  // ---------------------------------------------------------------------------------
  // Name order

  /** Python's `<` on strings: lexicographic by code point, a proper prefix first. */
  predicate StrLess(a: string, b: string)
    decreases |a|
  {
    if a == [] then b != []
    else if b == [] then false
    else a[0] < b[0] || (a[0] == b[0] && StrLess(a[1..], b[1..]))
  }

  lemma {:induction false} StrLessIrreflexive(a: string)
    ensures !StrLess(a, a)
  {
    if a != [] {
      StrLessIrreflexive(a[1..]);
    }
  }

  lemma {:induction false} StrLessTransitive(a: string, b: string, c: string)
    requires StrLess(a, b) && StrLess(b, c)
    ensures StrLess(a, c)
    decreases |a|
  {
    if a != [] && a[0] == b[0] && b[0] == c[0] {
      StrLessTransitive(a[1..], b[1..], c[1..]);
    }
  }

  lemma {:induction false} StrLessTotal(a: string, b: string)
    requires a != b
    ensures StrLess(a, b) || StrLess(b, a)
    decreases |a|
  {
    if a != [] && b != [] && a[0] == b[0] {
      assert a == [a[0]] + a[1..] && b == [b[0]] + b[1..];
      StrLessTotal(a[1..], b[1..]);
    }
  }

  /** Strictly increasing by name. */
  predicate SortedByName(r: seq<Configured>) {
    forall i, j :: 0 <= i < j < |r| ==> StrLess(r[i].name, r[j].name)
  }

  /** r lists exactly the workspaces of ws, as (name, path, flags). */
  ghost predicate ListsWorkspaces(r: seq<Configured>, ws: map<string, WsEntry>) {
    forall e :: e in r <==> e.name in ws && ws[e.name] == WsEntry(e.path, e.flags)
  }

  /** The entry with the least name comes first in a sorted listing. */
  lemma SortedHeadLeast(a: seq<Configured>, e: Configured)
    requires SortedByName(a) && a != [] && e in a && e != a[0]
    ensures StrLess(a[0].name, e.name)
  { }

  /** Without its first entry, a sorted listing lists the other workspaces. */
  lemma SortedListingTail(a: seq<Configured>, ws: map<string, WsEntry>)
    requires SortedByName(a) && ListsWorkspaces(a, ws) && a != []
    ensures ListsWorkspaces(a[1..], ws - {a[0].name})
  {
    var rest := ws - {a[0].name};
    forall e
      ensures e in a[1..] <==> e.name in rest && rest[e.name] == WsEntry(e.path, e.flags)
    {
      if e in a[1..] {
        var k :| 1 <= k < |a| && a[k] == e;
        StrLessIrreflexive(a[0].name);
      }
      if e.name in rest && rest[e.name] == WsEntry(e.path, e.flags) {
        var k :| 0 <= k < |a| && a[k] == e;
        assert k != 0;
      }
    }
  }

  /** The listing of a map of workspaces is unique: two sorted listings of it are equal. */
  lemma {:induction false} SortedListingUnique(a: seq<Configured>, b: seq<Configured>, ws: map<string, WsEntry>)
    requires SortedByName(a) && SortedByName(b)
    requires ListsWorkspaces(a, ws) && ListsWorkspaces(b, ws)
    ensures a == b
    decreases |a|
  {
    if a != [] {
      assert a[0] in b;
    }
    if b != [] {
      assert b[0] in a;
    }
    if a != [] && b != [] {
      // the least name comes first in both
      if a[0] != b[0] {
        SortedHeadLeast(a, b[0]);
        SortedHeadLeast(b, a[0]);
        StrLessTransitive(a[0].name, b[0].name, a[0].name);
        StrLessIrreflexive(a[0].name);
        assert false;
      }
      SortedListingTail(a, ws);
      SortedListingTail(b, ws);
      SortedListingUnique(a[1..], b[1..], ws - {a[0].name});
      assert a == [a[0]] + a[1..] && b == [b[0]] + b[1..];
    }
  }

  // ---------------------------------------------------------------------------------
  // The cache object

  /** The in-memory configuration cache: `'WORKSPACES' in cache` is `populated`. */
  class ConfigCache {
    var populated: bool
    var workspaces: map<string, WsEntry>
    var singles: seq<Configured>

    constructor ()
      ensures !populated && workspaces == map[] && singles == []
    {
      populated := false;
      workspaces := map[];
      singles := [];
    }

    /** The declarations held. */
    function Held(): Declared
      reads this
    {
      Declared(workspaces, singles)
    }

    /** `_readcfgline(number, line, cache)`. An error leaves the cache as it was. */
    method ReadLine(number: nat, line: string, expand: string -> string, glob: string -> seq<string>) returns (r: Result<()>)
      modifies this
      ensures populated == old(populated)
      ensures ApplyLine(old(Held()), number, line, expand, glob).Ok? ==>
        r == Ok(()) && Held() == ApplyLine(old(Held()), number, line, expand, glob).value
      ensures ApplyLine(old(Held()), number, line, expand, glob).Err? ==>
        r == Err(ApplyLine(old(Held()), number, line, expand, glob).error) && Held() == old(Held())
    {
      if "#" <= line {
        return Ok(());
      }
      var parsed := ParseLine(number, line, expand);
      if parsed.Err? {
        return Err(parsed.error);
      }
      var keyword, path, flags := parsed.value.keyword, parsed.value.path, parsed.value.flags;
      if keyword == "WORKSPACE" {
        AddWorkspaceMatches(glob(path), flags);
        return Ok(());
      }
      if keyword == "PROJECT" {
        AppendSingles(glob(path), flags);
        return Ok(());
      }
      if keyword == "FORGET" {
        Forget(path);
        return Ok(());
      }
      r := Err(InvalidLine(number));
    }

    /** The WORKSPACE branch: one map entry per match, under its basename. */
    method AddWorkspaceMatches(matches: seq<string>, flags: seq<string>)
      modifies this
      ensures populated == old(populated) && singles == old(singles)
      ensures workspaces == AddWorkspaces(old(workspaces), Basenames(matches), matches, flags)
    {
      ghost var names := Basenames(matches);
      var i := 0;
      while i < |matches|
        invariant 0 <= i <= |matches|
        invariant workspaces == AddWorkspaces(old(workspaces), names[..i], matches[..i], flags)
        invariant populated == old(populated) && singles == old(singles)
      {
        AddWorkspacesStep(old(workspaces), names, matches, flags, i);
        workspaces := workspaces[Basename(matches[i]) := WsEntry(matches[i], flags)];
        i := i + 1;
      }
      assert matches[..|matches|] == matches && names[..|names|] == names;
    }

    /** The PROJECT branch: one single project per match, appended in match order. */
    method AppendSingles(matches: seq<string>, flags: seq<string>)
      modifies this
      ensures populated == old(populated) && workspaces == old(workspaces)
      ensures singles == old(singles) + AsSingles(matches, flags)
    {
      ghost var start := singles;
      var i := 0;
      while i < |matches|
        invariant 0 <= i <= |matches|
        invariant singles == start + AsSingles(matches[..i], flags)
        invariant populated == old(populated) && workspaces == old(workspaces)
      {
        var entry := Configured(Basename(matches[i]), matches[i], flags);
        AppendedSinglesStep(start, matches, flags, i);
        singles := singles + [entry];
        i := i + 1;
      }
      assert matches[..|matches|] == matches;
    }

    /** The FORGET branch: the first single project with exactly this path is removed. */
    method Forget(path: string)
      modifies this
      ensures populated == old(populated) && workspaces == old(workspaces)
      ensures singles == RemoveFirstWithPath(old(singles), path)
    {
      var i := 0;
      while i < |singles|
        invariant 0 <= i <= |singles| && singles == old(singles)
        invariant forall j :: 0 <= j < i ==> singles[j].path != path
      {
        if singles[i].path == path {
          ForgetRemovesFirst(singles, path, i);
          singles := singles[..i] + singles[i + 1..];
          return;
        }
        i := i + 1;
      }
      assert forall s :: s in singles ==> s.path != path;
      ForgetWithoutMatch(singles, path);
    }

    /** `_populateconfig(cache)`: nothing once populated; otherwise the cache is marked
        populated and emptied, then every non-blank line of the file (if there is one) is
        read in order. A failing line stops the reading and what was declared before it
        stays in the cache, which counts as populated from then on. */
    method Populate(file: Option<seq<string>>, expand: string -> string, glob: string -> seq<string>) returns (r: Result<()>)
      modifies this
      ensures populated
      ensures old(populated) ==> r == Ok(()) && Held() == old(Held())
      ensures !old(populated) && file.None? ==> r == Ok(()) && Held() == NoDeclarations
      ensures !old(populated) && file.Some? ==>
        Held() == Load(file.value, expand, glob).declared
        && (r.Ok? <==> Load(file.value, expand, glob).error.None?)
        && (r.Err? ==> r.error == Load(file.value, expand, glob).error.value)
    {
      if populated {
        return Ok(());
      }
      populated := true;
      workspaces := map[];
      singles := [];
      if file.None? {
        return Ok(());
      }
      var lines := file.value;
      var number := 0;
      while number < |lines|
        invariant 0 <= number <= |lines| && populated
        invariant Load(lines[..number], expand, glob) == Outcome(Held(), None)
      {
        var line := lines[number];
        LoadNext(lines, number, Held(), expand, glob);
        number := number + 1;
        var stripped := Strip(line);
        if |stripped| > 0 {
          var res := ReadLine(number, stripped, expand, glob);
          if res.Err? {
            LoadKeepsError(lines, number, expand, glob);
            return res;
          }
        }
      }
      assert lines[..|lines|] == lines;
      r := Ok(());
    }

    /** `get_workspaces(cache)`: the cache populated, then every workspace as
        (name, path, flags), sorted by name. */
    method GetWorkspaces(file: Option<seq<string>>, expand: string -> string, glob: string -> seq<string>)
      returns (r: Result<seq<Configured>>)
      modifies this
      ensures populated
      ensures old(populated) ==> r.Ok? && Held() == old(Held())
      ensures !old(populated) && file.None? ==> r.Ok? && Held() == NoDeclarations
      ensures !old(populated) && file.Some? ==>
        Held() == Load(file.value, expand, glob).declared
        && (r.Ok? <==> Load(file.value, expand, glob).error.None?)
        && (r.Err? ==> r.error == Load(file.value, expand, glob).error.value)
      ensures r.Ok? ==> SortedByName(r.value) && ListsWorkspaces(r.value, workspaces) && |r.value| == |workspaces.Keys|
    {
      var p := Populate(file, expand, glob);
      if p.Err? {
        return Err(p.error);
      }
      var result := SortedListing(workspaces);
      r := Ok(result);
    }

    /** `get_singles(cache)`: the cache populated, then the single projects in declaration
        order. */
    method GetSingles(file: Option<seq<string>>, expand: string -> string, glob: string -> seq<string>)
      returns (r: Result<seq<Configured>>)
      modifies this
      ensures populated
      ensures old(populated) ==> r == Ok(old(singles)) && Held() == old(Held())
      ensures !old(populated) && file.None? ==> r == Ok([]) && Held() == NoDeclarations
      ensures !old(populated) && file.Some? ==>
        Held() == Load(file.value, expand, glob).declared
        && (r.Ok? <==> Load(file.value, expand, glob).error.None?)
        && (r.Err? ==> r.error == Load(file.value, expand, glob).error.value)
      ensures r.Ok? ==> r.value == singles
    {
      var p := Populate(file, expand, glob);
      if p.Err? {
        return Err(p.error);
      }
      r := Ok(singles);
    }
  }

  /** Once the lines read so far failed, the whole file's reading failed the same way. */
  lemma {:induction false} LoadKeepsError(lines: seq<string>, k: nat, expand: string -> string, glob: string -> seq<string>)
    requires k <= |lines| && Load(lines[..k], expand, glob).error.Some?
    ensures Load(lines, expand, glob) == Load(lines[..k], expand, glob)
    decreases |lines| - k
  {
    if k < |lines| {
      assert lines[..k + 1][..k] == lines[..k];
      LoadKeepsError(lines, k + 1, expand, glob);
    } else {
      assert lines[..k] == lines;
    }
  }

  /** `[(name, path, flags) for name, (path, flags) in ws.items()]` followed by `sort()`:
      every workspace exactly once, ordered by name. */
  method SortedListing(ws: map<string, WsEntry>) returns (result: seq<Configured>)
    ensures SortedByName(result) && ListsWorkspaces(result, ws) && |result| == |ws.Keys|
  {
    result := [];
    var todo := ws.Keys;
    ghost var done: set<string> := {};
    while todo != {}
      invariant todo !! done && todo + done == ws.Keys
      invariant SortedByName(result)
      invariant forall e :: e in result <==> e.name in done && ws[e.name] == WsEntry(e.path, e.flags)
      invariant |result| == |done|
      decreases todo
    {
      var name :| name in todo;
      var e := Configured(name, ws[name].path, ws[name].flags);
      result := InsertByName(result, e);
      todo := todo - {name};
      done := done + {name};
    }
    assert done == ws.Keys;
  }

  /** Insert an entry whose name is new into a listing sorted by name. */
  method InsertByName(r: seq<Configured>, e: Configured) returns (s: seq<Configured>)
    requires SortedByName(r)
    requires forall x :: x in r ==> x.name != e.name
    ensures SortedByName(s)
    ensures forall x :: x in s <==> x in r || x == e
    ensures |s| == |r| + 1
  {
    var i := 0;
    while i < |r| && StrLess(r[i].name, e.name)
      invariant 0 <= i <= |r|
      invariant forall j :: 0 <= j < i ==> StrLess(r[j].name, e.name)
    {
      i := i + 1;
    }
    s := r[..i] + [e] + r[i..];
    forall j | i < j < |r|
      ensures StrLess(e.name, r[j].name)
    {
      StrLessTotal(r[i].name, e.name);
      StrLessTransitive(e.name, r[i].name, r[j].name);
    }
    if i < |r| {
      StrLessTotal(r[i].name, e.name);
    }
    forall a, b | 0 <= a < b < |s|
      ensures StrLess(s[a].name, s[b].name)
    {
      if a < i && b == i {
      } else if a < i && b > i {
        assert s[b] == r[b - 1];
        if b - 1 >= i {
          StrLessTransitive(r[a].name, e.name, r[b - 1].name);
        }
      } else if a == i {
        assert s[b] == r[b - 1];
      } else if a > i {
        assert s[a] == r[a - 1] && s[b] == r[b - 1];
      }
    }
  }
}
