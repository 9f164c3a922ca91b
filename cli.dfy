/** The terminal summary of one repo: home-relative paths, the compressed file lists, the
    colour of each kind of news, and the lines `RepoSummary.printnow` writes. Colours are
    written as the ANSI "select graphic rendition" sequences `click.style` emits. */
module Cli {
  import opened Common
  import opened Strings
  import opened Records
  import opened Caching
  import opened Inspect
  import opened Projects

  // ---------------------------------------------------------------------------------
  // Paths and file lists

  /** `_shortpath(pathstr)`, with `home` the value of $HOME ("" when it is unset). */
  function ShortPath(home: string, path: string): (r: string)
    ensures home == [] ==> r == path
    ensures r == path || (home != [] && home <= path && r == "~" + path[|home|..])
  {
    if home != [] && home <= path then "~" + path[|home|..] else path
  }

  /** Reading a leading "~" back as $HOME. */
  function ExpandHome(home: string, s: string): string
  {
    if home != [] && |s| >= 1 && s[0] == '~' then home + s[1..] else s
  }

  /** Shortening loses nothing: reading the "~" back as $HOME gives the path again. */
  lemma ShortPathExpands(home: string, path: string)
    requires path == [] || path[0] != '~'
    ensures ExpandHome(home, ShortPath(home, path)) == path
  {
    if home != [] && home <= path {
      assert path == home + path[|home|..];
    }
  }

  /** The test is a plain string prefix, not a path component: with $HOME "/home/al",
      "/home/alice/src" is shown as "~ice/src". */
  lemma ShortPathIgnoresComponents()
    ensures ShortPath("/home/al", "/home/alice/src") == "~ice/src"
  {
    assert "/home/al" <= "/home/alice/src";
  }

  /** The widest file list `_getfilesstr` writes out. */
  const FilesWidth: nat := 40

  /** Each name cut at its first '/', followed by "/...". */
  function Abbreviated(files: seq<string>): (r: seq<string>)
    ensures |r| == |files|
    ensures forall i :: 0 <= i < |r| ==> r[i] == Before(files[i], '/') + "/..."
  {
    if files == [] then [] else [Before(files[0], '/') + "/..."] + Abbreviated(files[1..])
  }

  /** `_getfilesstr(files)`: nothing for no files; the names joined by ", " when that fits
      in 40 characters; else their first components, each followed by "/...", when that
      fits; else the number of files. */
  function FilesStr(files: seq<string>): (r: string)
    ensures files == [] ==> r == ""
    ensures |r| <= FilesWidth || r == NatToString(|files|)
    ensures files != [] && |Join(", ", files)| <= FilesWidth ==> r == Join(", ", files)
    ensures files != [] && |Join(", ", files)| > FilesWidth && |Join(", ", Abbreviated(files))| <= FilesWidth ==>
      r == Join(", ", Abbreviated(files))
    ensures files != [] && |Join(", ", files)| > FilesWidth && |Join(", ", Abbreviated(files))| > FilesWidth ==>
      r == NatToString(|files|)
  {
    if |files| == 0 then ""
    else if |Join(", ", files)| <= FilesWidth then Join(", ", files)
    else if |Join(", ", Abbreviated(files))| <= FilesWidth then Join(", ", Abbreviated(files))
    else NatToString(|files|)
  }

  /** A joined list starts with its first part. */
  lemma JoinStartsWithFirst(sep: string, parts: seq<string>)
    requires parts != []
    ensures parts[0] <= Join(sep, parts)
  {
    if |parts| > 1 {
      assert Join(sep, parts) == parts[0] + (sep + Join(sep, parts[1..]));
    }
  }

  /** The file list is left out of the summary (it is "") exactly when there are no
      files, or the only file has an empty name. */
  lemma {:induction false} FilesStrEmpty(files: seq<string>)
    ensures FilesStr(files) == "" <==> files == [] || files == [""]
  {
    if |files| >= 2 {
      assert |Join(", ", files)| >= 2 by {
        assert Join(", ", files) == files[0] + ", " + Join(", ", files[1..]);
      }
      var short := Abbreviated(files);
      JoinStartsWithFirst(", ", short);
      assert |short[0]| >= 4;
    } else if |files| == 1 {
      assert Join(", ", files) == files[0];
    }
  }

  // ---------------------------------------------------------------------------------
  // Colours

  /** The style names of `style`. */
  datatype StyleName = SClean | SUnpushed | SChanged | SUntracked

  datatype Colour = Black | Red | Green | Yellow | Blue

  /** The escape character. */
  const Esc: char := '\U{1B}'

  /** The foreground colour parameter of each colour. */
  function ColourCode(c: Colour): (r: string)
    ensures |r| == 2 && IsDigit(r[0]) && IsDigit(r[1])
  {
    match c
    case Black => "30"
    case Red => "31"
    case Green => "32"
    case Yellow => "33"
    case Blue => "34"
  }

  predicate AllDigits(s: string) {
    forall k :: 0 <= k < |s| ==> IsDigit(s[k])
  }

  /** The sequence "ESC [ code m". */
  function Sgr(code: string): (r: string)
    requires code != [] && AllDigits(code)
    ensures |r| == |code| + 3
  {
    [Esc, '['] + code + "m"
  }

  /** The sequence for an optional attribute: nothing when it is not given, `on` when it
      is set, and "22" (normal intensity) when it is cleared. */
  function Attr(o: Option<bool>, on: string): (r: string)
    requires on != [] && AllDigits(on)
    ensures |r| == (if o.None? then 0 else if o.value then |on| + 3 else 5)
  {
    match o
    case None => ""
    case Some(b) => if b then Sgr(on) else Sgr("22")
  }

  /** `click.style(text, fg, bold, dim)`: the colour, then the boldness and the dimness
      where they are given, then the text and a reset. */
  function ClickStyle(text: string, fg: Colour, bold: Option<bool>, dim: Option<bool>): (r: string)
    ensures |r| == |text| + 9 + |Attr(bold, "1")| + |Attr(dim, "2")|
  {
    Sgr(ColourCode(fg)) + Attr(bold, "1") + Attr(dim, "2") + text + Sgr("0")
  }

  /** The colour and boldness `style` gives each style name. */
  function Look(name: Option<StyleName>): (look: (Colour, bool))
    ensures look.1 <==> name == Some(SChanged)
    ensures name == Some(SChanged) ==> look.0 == Red
    ensures name == Some(SUnpushed) ==> look.0 == Yellow
    ensures name == Some(SUntracked) ==> look.0 == Red
    ensures name == None || name == Some(SClean) ==> look.0 == Green
  {
    match name
    case Some(SChanged) => (Red, true)
    case Some(SUnpushed) => (Yellow, false)
    case Some(SUntracked) => (Red, false)
    case _ => (Green, false)
  }

  /** `style(stylename, text)` */
  function Style(name: Option<StyleName>, text: string): (r: string)
    ensures Esc !in text ==> StripAnsi(r) == text
    ensures |r| == |text| + (if name == Some(SChanged) then 13 else 14)
  {
    var look := Look(name);
    var r := ClickStyle(text, look.0, Some(look.1), None);
    assert Esc !in text ==> StripAnsi(r) == text by {
      if Esc !in text {
        ClickStyleShows(text, look.0, Some(look.1), None, []);
        assert r + [] == r;
      }
    }
    r
  }

  /** The text a terminal shows: `s` without its "ESC [ digits m" sequences. */
  function StripAnsi(s: string): string
    decreases |s|
  {
    if s == [] then []
    else if |s| >= 2 && s[0] == Esc && s[1] == '[' && SgrEnd(s) < |s| && s[SgrEnd(s)] == 'm' && SgrEnd(s) > 2 then
      StripAnsi(s[SgrEnd(s) + 1..])
    else [s[0]] + StripAnsi(s[1..])
  }

  /** Where the digits after "ESC [" end. */
  function SgrEnd(s: string): (j: nat)
    requires |s| >= 2
    ensures 2 <= j <= |s|
  {
    SpanWhile(s, 2, IsDigit)
  }

  /** An escape sequence shows nothing. */
  lemma SgrShowsNothing(code: string, rest: string)
    requires code != [] && AllDigits(code)
    ensures StripAnsi(Sgr(code) + rest) == StripAnsi(rest)
  {
    var s := Sgr(code) + rest;
    var e := |code| + 2;
    assert s[e] == 'm';
    assert forall k :: 2 <= k < e ==> s[k] == code[k - 2];
    assert !IsDigit(s[e]);
    var j := SgrEnd(s);
    assert j <= e;
    assert j >= e;
    assert s[e + 1..] == rest;
  }

  /** Plain text shows as it is. */
  lemma {:induction false} PlainShows(t: string, rest: string)
    requires Esc !in t
    ensures StripAnsi(t + rest) == t + StripAnsi(rest)
  {
    if t == [] {
      assert t + rest == rest;
    } else {
      assert t[0] in t;
      assert (t + rest)[0] == t[0] && t[0] != Esc;
      assert (t + rest)[1..] == t[1..] + rest;
      PlainShows(t[1..], rest);
    }
  }

  /** An optional attribute shows nothing. */
  lemma AttrShowsNothing(o: Option<bool>, on: string, rest: string)
    requires on != [] && AllDigits(on)
    ensures StripAnsi(Attr(o, on) + rest) == StripAnsi(rest)
  {
    match o {
      case None => assert Attr(o, on) + rest == rest;
      case Some(b) => SgrShowsNothing(if b then on else "22", rest);
    }
  }

  /** The colour and the attributes show nothing. */
  lemma PrefixShowsNothing(fg: Colour, bold: Option<bool>, dim: Option<bool>, y: string)
    ensures StripAnsi(Sgr(ColourCode(fg)) + (Attr(bold, "1") + (Attr(dim, "2") + y))) == StripAnsi(y)
  {
    var x := Attr(dim, "2") + y;
    SgrShowsNothing(ColourCode(fg), Attr(bold, "1") + x);
    AttrShowsNothing(bold, "1", x);
    AttrShowsNothing(dim, "2", y);
  }

  /** Plain text followed by the reset shows as the text. */
  lemma TextThenReset(text: string, rest: string)
    requires Esc !in text
    ensures StripAnsi(text + (Sgr("0") + rest)) == text + StripAnsi(rest)
  {
    PlainShows(text, Sgr("0") + rest);
    SgrShowsNothing("0", rest);
  }

  /** A styled text shows as the text. */
  lemma ClickStyleShows(text: string, fg: Colour, bold: Option<bool>, dim: Option<bool>, rest: string)
    requires Esc !in text
    ensures StripAnsi(ClickStyle(text, fg, bold, dim) + rest) == text + StripAnsi(rest)
  {
    var y := text + (Sgr("0") + rest);
    ClickStyleThen(text, fg, bold, dim, rest);
    PrefixShowsNothing(fg, bold, dim, y);
    TextThenReset(text, rest);
  }

  /** A styled text followed by more, grouped as the stripping reads it. */
  lemma ClickStyleThen(text: string, fg: Colour, bold: Option<bool>, dim: Option<bool>, rest: string)
    ensures ClickStyle(text, fg, bold, dim) + rest
      == Sgr(ColourCode(fg)) + (Attr(bold, "1") + (Attr(dim, "2") + (text + (Sgr("0") + rest))))
  { }

  // ---------------------------------------------------------------------------------
  // Summaries

  /** The outgoing value a summary shows: "" in place of the integer 0. */
  function OutgoingShown(o: Outgoing): (r: Outgoing)
    ensures r.Truthy() <==> o.Truthy()
    ensures o == Num(0) ==> r == Text("")
    ensures o != Num(0) ==> r == o
  {
    if o == Num(0) then Text("") else o
  }

  /** `str(n)` for any integer. */
  function IntToString(n: int): (r: string)
    ensures |r| >= 1 && (r[0] == '-' <==> n < 0)
    ensures n >= 0 ==> (forall k :: 0 <= k < |r| ==> IsDigit(r[k])) && DecimalValue(r) == n
    ensures n < 0 ==> (forall k :: 0 <= k < |r| - 1 ==> IsDigit(r[1..][k])) && DecimalValue(r[1..]) == -n
  {
    if n < 0 then "-" + NatToString(-n) else NatToString(n)
  }

  /** `'%s' % value` for an outgoing value. */
  function OutgoingText(o: Outgoing): (r: string)
    ensures o.Text? ==> r == o.s
    ensures o.Num? ==> |r| >= 1 && (r[0] == '-' <==> o.n < 0)
    ensures o.Num? && o.n >= 0 ==> (forall k :: 0 <= k < |r| ==> IsDigit(r[k])) && DecimalValue(r) == o.n
  {
    match o
    case Num(n) => IntToString(n)
    case Text(s) => s
  }

  /** The main style of `RepoSummary.__init__`: changed files first, then a non-zero
      outgoing flag, then untracked files or stashes. */
  function MainStyle(info: RepoInfo): (s: Option<StyleName>)
    ensures s != Some(SClean)
    ensures s == Some(SChanged) <==> info.changed != []
    ensures s == Some(SUnpushed) <==> info.changed == [] && info.outgoing.Truthy()
    ensures s == Some(SUntracked) <==>
      info.changed == [] && !info.outgoing.Truthy() && (info.untracked != [] || info.stashes != 0)
    ensures s == None <==>
      info.changed == [] && !info.outgoing.Truthy() && info.untracked == [] && info.stashes == 0
  {
    if |info.changed| != 0 then Some(SChanged)
    else if OutgoingShown(info.outgoing).Truthy() then Some(SUnpushed)
    else if |info.untracked| != 0 || info.stashes != 0 then Some(SUntracked)
    else None
  }

  /** The summary colour agrees with `getstatus` on clean repos and on changed files... */
  lemma MainStyleAndStatus(info: RepoInfo)
    ensures MainStyle(info).None? <==> StatusOf(Some(info)) == CLEAN
    ensures MainStyle(info) == Some(SChanged) ==> StatusOf(Some(info)) == CHANGED
  {
  }

  /** ...but not elsewhere: stashes alone make a repo CHANGED but are coloured like
      untracked files, and untracked files with outgoing commits make a repo UNTRACKED but
      are coloured as unpushed. */
  lemma MainStyleDiffersFromStatus()
    ensures var stashed := RepoInfo(Some("main"), [], [], Zero, 1);
      StatusOf(Some(stashed)) == CHANGED && MainStyle(stashed) == Some(SUntracked)
    ensures var both := RepoInfo(Some("main"), [], ["notes.txt"], OnePlus, 0);
      StatusOf(Some(both)) == UNTRACKED && MainStyle(both) == Some(SUnpushed)
  {
    assert OnePlus.Truthy();
  }

  /** One entry of the stats line: its style and its text. */
  datatype Stat = Stat(style: StyleName, text: string)

  /** The entries of the stats line, each shown only when it has something to say, in
      the order changed, outgoing, untracked, stashes. */
  function StatsOf(changed: seq<string>, outgoing: Outgoing, untracked: seq<string>, stashes: int): (r: seq<Stat>)
    ensures |r| <= 4
    ensures Labelled(r)
    ensures r == [] <==> FilesStr(changed) == "" && !outgoing.Truthy() && FilesStr(untracked) == "" && stashes == 0
  {
    var changes := FilesStr(changed);
    var untrackedStr := FilesStr(untracked);
    var a := Opt(changes != "", Stat(SChanged, "Changed: " + changes));
    var b := Opt(outgoing.Truthy(), Stat(SUnpushed, "Outgoing: " + OutgoingText(outgoing)));
    var c := Opt(untrackedStr != "", Stat(SUntracked, "Untracked: " + untrackedStr));
    var d := Opt(stashes != 0, Stat(SUntracked, "Stashes: " + IntToString(stashes)));
    OptsJoin(changes != "", a, outgoing.Truthy(), b, untrackedStr != "", c, stashes != 0, d);
    a + b + c + d
  }

  /** The stats line as the four optional entries in a row. */
  lemma StatsOfRow(changed: seq<string>, outgoing: Outgoing, untracked: seq<string>, stashes: int)
    ensures StatsOf(changed, outgoing, untracked, stashes)
      == Opt(FilesStr(changed) != "", Stat(SChanged, "Changed: " + FilesStr(changed)))
       + Opt(outgoing.Truthy(), Stat(SUnpushed, "Outgoing: " + OutgoingText(outgoing)))
       + Opt(FilesStr(untracked) != "", Stat(SUntracked, "Untracked: " + FilesStr(untracked)))
       + Opt(stashes != 0, Stat(SUntracked, "Stashes: " + IntToString(stashes)))
  {
  }

  /** Where an entry stands in the stats line, read off its label. */
  function Slot(stat: Stat): nat
  {
    if "Changed: " <= stat.text then 0
    else if "Outgoing: " <= stat.text then 1
    else if "Untracked: " <= stat.text then 2
    else 3
  }

  /** The four labels of the stats line rank in the order changed, outgoing, untracked,
      stashes. */
  lemma SlotsOfLabels(style: StyleName, x: string)
    ensures Slot(Stat(style, "Changed: " + x)) == 0
    ensures Slot(Stat(style, "Outgoing: " + x)) == 1
    ensures Slot(Stat(style, "Untracked: " + x)) == 2
    ensures Slot(Stat(style, "Stashes: " + x)) == 3
  {
    assert ("Outgoing: " + x)[0] == 'O';
    assert ("Untracked: " + x)[0] == 'U';
    assert ("Stashes: " + x)[0] == 'S';
  }

  /** The four entries the stats line can hold differ from each other. */
  lemma StatsDistinct(changes: string, outgoing: string, untracked: string, stashes: string)
    ensures var sc := Stat(SChanged, "Changed: " + changes);
      var so := Stat(SUnpushed, "Outgoing: " + outgoing);
      var su := Stat(SUntracked, "Untracked: " + untracked);
      var ss := Stat(SUntracked, "Stashes: " + stashes);
      sc != so && sc != su && sc != ss && so != su && so != ss && su != ss
  {
    assert ("Untracked: " + untracked)[0] == 'U' && ("Stashes: " + stashes)[0] == 'S';
  }

  /** The stats line holds the changed files when there are any to show, the outgoing flag
      when it is set, the untracked files when there are any to show and the stash count
      when it is not zero, each with its label and style. */
  lemma StatsOfEntries(changed: seq<string>, outgoing: Outgoing, untracked: seq<string>, stashes: int)
    ensures Stat(SChanged, "Changed: " + FilesStr(changed)) in StatsOf(changed, outgoing, untracked, stashes)
      <==> FilesStr(changed) != ""
    ensures Stat(SUnpushed, "Outgoing: " + OutgoingText(outgoing)) in StatsOf(changed, outgoing, untracked, stashes)
      <==> outgoing.Truthy()
    ensures Stat(SUntracked, "Untracked: " + FilesStr(untracked)) in StatsOf(changed, outgoing, untracked, stashes)
      <==> FilesStr(untracked) != ""
    ensures Stat(SUntracked, "Stashes: " + IntToString(stashes)) in StatsOf(changed, outgoing, untracked, stashes)
      <==> stashes != 0
  {
    var sc := Stat(SChanged, "Changed: " + FilesStr(changed));
    var so := Stat(SUnpushed, "Outgoing: " + OutgoingText(outgoing));
    var su := Stat(SUntracked, "Untracked: " + FilesStr(untracked));
    var ss := Stat(SUntracked, "Stashes: " + IntToString(stashes));
    StatsDistinct(FilesStr(changed), OutgoingText(outgoing), FilesStr(untracked), IntToString(stashes));
    var r := StatsOf(changed, outgoing, untracked, stashes);
    StatsOfRow(changed, outgoing, untracked, stashes);
    OptsShown(r, FilesStr(changed) != "", sc, outgoing.Truthy(), so, FilesStr(untracked) != "", su, stashes != 0, ss);
  }

  /** The stats line holds nothing but those four entries. */
  lemma StatsOfOnly(changed: seq<string>, outgoing: Outgoing, untracked: seq<string>, stashes: int)
    ensures var r := StatsOf(changed, outgoing, untracked, stashes);
      forall k :: 0 <= k < |r| ==>
        || r[k] == Stat(SChanged, "Changed: " + FilesStr(changed))
        || r[k] == Stat(SUnpushed, "Outgoing: " + OutgoingText(outgoing))
        || r[k] == Stat(SUntracked, "Untracked: " + FilesStr(untracked))
        || r[k] == Stat(SUntracked, "Stashes: " + IntToString(stashes))
  {
    var sc := Stat(SChanged, "Changed: " + FilesStr(changed));
    var so := Stat(SUnpushed, "Outgoing: " + OutgoingText(outgoing));
    var su := Stat(SUntracked, "Untracked: " + FilesStr(untracked));
    var ss := Stat(SUntracked, "Stashes: " + IntToString(stashes));
    var r := StatsOf(changed, outgoing, untracked, stashes);
    StatsOfRow(changed, outgoing, untracked, stashes);
    OptsOnly(r, FilesStr(changed) != "", sc, outgoing.Truthy(), so, FilesStr(untracked) != "", su, stashes != 0, ss);
  }

  /** The entries of the stats line come in the order changed, outgoing, untracked,
      stashes. */
  lemma StatsOfOrder(changed: seq<string>, outgoing: Outgoing, untracked: seq<string>, stashes: int)
    ensures InSlotOrder(StatsOf(changed, outgoing, untracked, stashes))
  {
    var sc := Stat(SChanged, "Changed: " + FilesStr(changed));
    var so := Stat(SUnpushed, "Outgoing: " + OutgoingText(outgoing));
    var su := Stat(SUntracked, "Untracked: " + FilesStr(untracked));
    var ss := Stat(SUntracked, "Stashes: " + IntToString(stashes));
    SlotsOfLabels(SChanged, FilesStr(changed));
    SlotsOfLabels(SUnpushed, OutgoingText(outgoing));
    SlotsOfLabels(SUntracked, FilesStr(untracked));
    SlotsOfLabels(SUntracked, IntToString(stashes));
    StatsOfRow(changed, outgoing, untracked, stashes);
    OptsInSlotOrder(FilesStr(changed) != "", sc, outgoing.Truthy(), so, FilesStr(untracked) != "", su, stashes != 0, ss);
  }

  /** Each entry of a row has a later slot than the one before it. */
  predicate InSlotOrder(r: seq<Stat>) {
    forall k :: 0 < k < |r| ==> Slot(r[k - 1]) < Slot(r[k])
  }

  /** Appending an optional entry adds exactly that entry when it is shown, and nothing
      when it is not. */
  lemma OptAppend<T>(r: seq<T>, p: bool, x: T)
    ensures forall y :: y in r + Opt(p, x) <==> y in r || (p && y == x)
  {
    if p {
      assert Opt(p, x) == [x];
    } else {
      assert r + Opt(p, x) == r;
    }
  }

  /** The members of four optional entries in a row, one append at a time. */
  lemma OptsMembers<T>(p: bool, a: T, q: bool, b: T, u: bool, c: T, v: bool, d: T)
    ensures forall y :: y in Opt(p, a) + Opt(q, b) + Opt(u, c) + Opt(v, d) <==>
      (p && y == a) || (q && y == b) || (u && y == c) || (v && y == d)
  {
    OptAppend([], p, a);
    assert [] + Opt(p, a) == Opt(p, a);
    OptAppend(Opt(p, a), q, b);
    OptAppend(Opt(p, a) + Opt(q, b), u, c);
    OptAppend(Opt(p, a) + Opt(q, b) + Opt(u, c), v, d);
  }

  /** Four optional entries in a row: each of four distinct entries is there exactly
      when it is shown. */
  lemma OptsShown<T>(r: seq<T>, p: bool, a: T, q: bool, b: T, u: bool, c: T, v: bool, d: T)
    requires a != b && a != c && a != d && b != c && b != d && c != d
    requires r == Opt(p, a) + Opt(q, b) + Opt(u, c) + Opt(v, d)
    ensures (a in r <==> p) && (b in r <==> q) && (c in r <==> u) && (d in r <==> v)
  {
    OptsMembers(p, a, q, b, u, c, v, d);
  }

  /** Four optional entries in a row: nothing else is in it. */
  lemma OptsOnly<T>(r: seq<T>, p: bool, a: T, q: bool, b: T, u: bool, c: T, v: bool, d: T)
    requires r == Opt(p, a) + Opt(q, b) + Opt(u, c) + Opt(v, d)
    ensures forall k :: 0 <= k < |r| ==> (r[k] == a || r[k] == b || r[k] == c || r[k] == d)
  {
    OptsMembers(p, a, q, b, u, c, v, d);
    forall k | 0 <= k < |r|
      ensures r[k] == a || r[k] == b || r[k] == c || r[k] == d
    {
      assert r[k] in r;
    }
  }

  /** An optional entry whose slot is later than every slot of a row in slot order keeps
      the row in slot order, and is then the row's latest slot. */
  lemma SlotOrderAppend(r: seq<Stat>, bound: int, p: bool, x: Stat)
    requires InSlotOrder(r) && (r != [] ==> Slot(r[|r| - 1]) <= bound) && bound < Slot(x)
    ensures var r' := r + Opt(p, x);
      InSlotOrder(r') && (r' != [] ==> Slot(r'[|r'| - 1]) <= Slot(x))
  {
  }

  /** Two optional entries in increasing slots are in slot order, ending no later than
      the second slot. */
  lemma TwoInSlotOrder(p: bool, a: Stat, q: bool, b: Stat)
    requires Slot(a) < Slot(b)
    ensures var r := Opt(p, a) + Opt(q, b);
      InSlotOrder(r) && (r != [] ==> Slot(r[|r| - 1]) <= Slot(b))
  {
    SlotOrderAppend([], Slot(a) - 1, p, a);
    assert [] + Opt(p, a) == Opt(p, a);
    SlotOrderAppend(Opt(p, a), Slot(a), q, b);
  }

  /** Three optional entries in increasing slots are in slot order, ending no later than
      the third slot. */
  lemma ThreeInSlotOrder(p: bool, a: Stat, q: bool, b: Stat, u: bool, c: Stat)
    requires Slot(a) < Slot(b) < Slot(c)
    ensures var r := Opt(p, a) + Opt(q, b) + Opt(u, c);
      InSlotOrder(r) && (r != [] ==> Slot(r[|r| - 1]) <= Slot(c))
  {
    TwoInSlotOrder(p, a, q, b);
    SlotOrderAppend(Opt(p, a) + Opt(q, b), Slot(b), u, c);
  }

  /** Four optional entries in increasing slots stay in slot order in a row. */
  lemma OptsInSlotOrder(p: bool, a: Stat, q: bool, b: Stat, u: bool, c: Stat, v: bool, d: Stat)
    requires Slot(a) < Slot(b) < Slot(c) < Slot(d)
    ensures InSlotOrder(Opt(p, a) + Opt(q, b) + Opt(u, c) + Opt(v, d))
  {
    ThreeInSlotOrder(p, a, q, b, u, c);
    SlotOrderAppend(Opt(p, a) + Opt(q, b) + Opt(u, c), Slot(c), v, d);
  }

  /** Four optional labelled entries in a row: at most four, all labelled, none exactly
      when none is shown. */
  lemma OptsJoin(p: bool, a: seq<Stat>, q: bool, b: seq<Stat>, u: bool, c: seq<Stat>, v: bool, d: seq<Stat>)
    requires |a| <= 1 && (a == [] <==> !p) && Labelled(a)
    requires |b| <= 1 && (b == [] <==> !q) && Labelled(b)
    requires |c| <= 1 && (c == [] <==> !u) && Labelled(c)
    requires |d| <= 1 && (d == [] <==> !v) && Labelled(d)
    ensures |a + b + c + d| <= 4 && Labelled(a + b + c + d)
    ensures a + b + c + d == [] <==> !p && !q && !u && !v
  {
  }

  /** Every entry's text is at least as long as the shortest label, "Changed: ". */
  predicate Labelled(stats: seq<Stat>) {
    forall k :: 0 <= k < |stats| ==> |stats[k].text| >= 9
  }

  /** The entry when it is shown. */
  function Opt<T>(shown: bool, x: T): (r: seq<T>)
    ensures |r| <= 1 && (r == [] <==> !shown)
    ensures r != [] ==> r[0] == x
  {
    if shown then [x] else []
  }

  /** A summary with nothing to report besides its title belongs to a CLEAN repo (for
      records whose file names are not empty). */
  lemma QuietIffClean(info: RepoInfo)
    requires "" !in info.changed && "" !in info.untracked
    ensures StatsOf(info.changed, OutgoingShown(info.outgoing), info.untracked, info.stashes) == []
            <==> StatusOf(Some(info)) == CLEAN
  {
    FilesStrEmpty(info.changed);
    FilesStrEmpty(info.untracked);
  }

  /** The stats written on one line are separated by a dim black " | ". */
  function Pipe(): (r: string)
    ensures |r| == 16
  {
    ClickStyle(" | ", Black, None, Some(true))
  }

  function Rendered(stats: seq<Stat>): (r: seq<string>)
    ensures |r| == |stats|
    ensures forall k :: 0 <= k < |r| ==> r[k] == Style(Some(stats[k].style), stats[k].text)
  {
    if stats == [] then [] else [Style(Some(stats[0].style), stats[0].text)] + Rendered(stats[1..])
  }

  function Texts(stats: seq<Stat>): (r: seq<string>)
    ensures |r| == |stats|
    ensures forall k :: 0 <= k < |r| ==> r[k] == stats[k].text
  {
    if stats == [] then [] else [stats[0].text] + Texts(stats[1..])
  }

  /** The widest stats line `printnow` writes as one line. */
  const LineWidth: nat := 80

  /** The stats lines of `printnow`: none without stats; one line, indented by two more
      spaces, when the styled entries joined by the pipe take at most 80 characters; else
      one such line per entry. */
  function Layout(indent: string, stats: seq<Stat>): (r: seq<string>)
    ensures stats == [] ==> r == []
    ensures stats != [] ==> |r| == 1 || |r| == |stats|
    ensures forall k :: 0 <= k < |r| ==> indent + "  " <= r[k]
    ensures stats != [] && |Join(Pipe(), Rendered(stats))| <= LineWidth ==>
      r == [indent + "  " + Join(Pipe(), Rendered(stats))]
    ensures stats != [] && |Join(Pipe(), Rendered(stats))| > LineWidth ==>
      |r| == |stats| && forall k :: 0 <= k < |r| ==> r[k] == indent + "  " + Rendered(stats)[k]
  {
    if stats == [] then []
    else if |Join(Pipe(), Rendered(stats))| <= LineWidth then [indent + "  " + Join(Pipe(), Rendered(stats))]
    else seq(|stats|, k requires 0 <= k < |stats| => indent + "  " + Rendered(stats)[k])
  }

  /** The lines of a layout too wide for one line: each styled entry, indented. */
  lemma LayoutEach(indent: string, stats: seq<Stat>) returns (each: seq<string>)
    requires stats != [] && |Join(Pipe(), Rendered(stats))| > LineWidth
    ensures each == Layout(indent, stats) && |each| == |stats|
    ensures forall k :: 0 <= k < |stats| ==> each[k] == indent + "  " + Style(Some(stats[k].style), stats[k].text)
  {
    each := Layout(indent, stats);
  }

  /** One styled entry followed by the pipe shows as its text and " | ". */
  lemma StyledThenPipe(stat: Stat, rest: string)
    requires Esc !in stat.text
    ensures StripAnsi(Style(Some(stat.style), stat.text) + (Pipe() + rest)) == stat.text + (" | " + StripAnsi(rest))
  {
    var look := Look(Some(stat.style));
    ClickStyleShows(stat.text, look.0, Some(look.1), None, Pipe() + rest);
    ClickStyleShows(" | ", Black, None, Some(true), rest);
  }

  /** On the one-line layout the terminal shows the entries' texts joined by " | ". */
  lemma {:induction false} OneLineShows(stats: seq<Stat>)
    requires stats != []
    requires forall k :: 0 <= k < |stats| ==> Esc !in stats[k].text
    ensures StripAnsi(Join(Pipe(), Rendered(stats))) == Join(" | ", Texts(stats))
  {
    if |stats| > 1 {
      var rest := Join(Pipe(), Rendered(stats[1..]));
      assert Rendered(stats)[1..] == Rendered(stats[1..]);
      assert Texts(stats)[1..] == Texts(stats[1..]);
      assert Join(Pipe(), Rendered(stats)) == Rendered(stats)[0] + (Pipe() + rest);
      StyledThenPipe(stats[0], rest);
      OneLineShows(stats[1..]);
    }
  }

  /** A joined list is at least as long as its parts' lower bound times their number,
      plus the separators. */
  lemma {:induction false} JoinLength(sep: string, parts: seq<string>, m: nat)
    requires parts != []
    requires forall k :: 0 <= k < |parts| ==> |parts[k]| >= m
    ensures |Join(sep, parts)| >= |parts| * m + (|parts| - 1) * |sep|
  {
    if |parts| > 1 {
      JoinLength(sep, parts[1..], m);
    }
  }

  /** The 80-character test counts the escape sequences: every styled entry carries at
      least 13 invisible characters and every pipe 13, so three or more entries are never
      written on one line, however short their texts. */
  lemma ThreeStatsNeverShareALine(indent: string, stats: seq<Stat>)
    requires |stats| >= 3 && Labelled(stats)
    ensures |Layout(indent, stats)| == |stats|
  {
    JoinLength(Pipe(), Rendered(stats), 22);
    assert |stats| * 22 + (|stats| - 1) * 16 > LineWidth;
  }

  /** The lines `printnow` writes for the repo at `path` with record `info`, indented by
      `indent` spaces: the title in the repo's main style, then the stats lines. A repo with
      nothing to report gets its title alone. */
  function SummaryLines(home: string, path: string, indent: nat, info: RepoInfo): (r: seq<string>)
    ensures |r| >= 1 && r[0] == Style(MainStyle(info), seq(indent, _ => ' ') + "> " + ShortPath(home, path))
    ensures Esc !in ShortPath(home, path) ==> StripAnsi(r[0]) == seq(indent, _ => ' ') + "> " + ShortPath(home, path)
    ensures |r| == 1 <==> StatsOf(info.changed, OutgoingShown(info.outgoing), info.untracked, info.stashes) == []
  {
    var pad := seq(indent, _ => ' ');
    assert Esc !in pad + "> ";
    [Style(MainStyle(info), pad + "> " + ShortPath(home, path))]
      + Layout(pad, StatsOf(info.changed, OutgoingShown(info.outgoing), info.untracked, info.stashes))
  }

  /** The summary of one repo, made from the record `_getinfo(True)` gives. */
  class RepoSummary {
    /** `_repo._path` */
    const path: string
    /** `_indent`: that many spaces. */
    const indent: string
    const branch: Option<string>
    const filesChanged: seq<string>
    const filesUntracked: seq<string>
    /** `_outgoing_info` */
    const outgoingInfo: Outgoing
    const numStashes: int
    const mainStyle: Option<StyleName>

    constructor (path: string, indent: nat, info: RepoInfo)
      ensures this.path == path && this.indent == seq(indent, _ => ' ')
      ensures branch == info.branch && filesChanged == info.changed && filesUntracked == info.untracked
      ensures outgoingInfo == OutgoingShown(info.outgoing) && numStashes == info.stashes
      ensures mainStyle == MainStyle(info)
    {
      this.path := path;
      this.indent := seq(indent, _ => ' ');
      branch := info.branch;
      filesChanged := info.changed;
      filesUntracked := info.untracked;
      var shown := if info.outgoing == Num(0) then Text("") else info.outgoing;
      outgoingInfo := shown;
      numStashes := info.stashes;
      var style: Option<StyleName> := None;
      if |info.changed| != 0 {
        style := Some(SChanged);
      } else if shown.Truthy() {
        style := Some(SUnpushed);
      } else if |info.untracked| != 0 || info.stashes != 0 {
        style := Some(SUntracked);
      }
      mainStyle := style;
    }

    /** The title line: the repo path, home-relative, in the main style. */
    function Title(home: string): string
    {
      Style(mainStyle, indent + "> " + ShortPath(home, path))
    }

    /** `printnow`: the lines it writes, given $HOME. */
    method PrintNow(home: string) returns (lines: seq<string>)
      ensures lines == [Title(home)] + Layout(indent, StatsOf(filesChanged, outgoingInfo, filesUntracked, numStashes))
    {
      var stats := CollectStats();
      var rest := WriteStats(indent, stats);
      lines := [Style(mainStyle, indent + "> " + ShortPath(home, path))] + rest;
    }

    /** The `stats` list `printnow` builds. */
    method CollectStats() returns (stats: seq<Stat>)
      ensures stats == StatsOf(filesChanged, outgoingInfo, filesUntracked, numStashes)
    {
      stats := [];
      var changes := FilesStr(filesChanged);
      if changes != "" {
        stats := stats + [Stat(SChanged, "Changed: " + changes)];
      }
      assert stats == Opt(changes != "", Stat(SChanged, "Changed: " + changes));
      ghost var upTo1 := stats;
      if outgoingInfo.Truthy() {
        stats := stats + [Stat(SUnpushed, "Outgoing: " + OutgoingText(outgoingInfo))];
      }
      assert stats == upTo1 + Opt(outgoingInfo.Truthy(), Stat(SUnpushed, "Outgoing: " + OutgoingText(outgoingInfo)));
      ghost var upTo2 := stats;
      var untracked := FilesStr(filesUntracked);
      if untracked != "" {
        stats := stats + [Stat(SUntracked, "Untracked: " + untracked)];
      }
      assert stats == upTo2 + Opt(untracked != "", Stat(SUntracked, "Untracked: " + untracked));
      ghost var upTo3 := stats;
      if numStashes != 0 {
        stats := stats + [Stat(SUntracked, "Stashes: " + IntToString(numStashes))];
      }
      assert stats == upTo3 + Opt(numStashes != 0, Stat(SUntracked, "Stashes: " + IntToString(numStashes)));
    }
  }

  /** The tail of `printnow`: the stats on one line when the joined text fits, else one
      line each. */
  method WriteStats(indent: string, stats: seq<Stat>) returns (lines: seq<string>)
    ensures lines == Layout(indent, stats)
  {
    lines := [];
    if |stats| != 0 {
      var oneline := Join(Pipe(), Rendered(stats));
      if |oneline| <= LineWidth {
        lines := [indent + "  " + oneline];
      } else {
        lines := WriteEach(indent, stats);
        ghost var each := LayoutEach(indent, stats);
        assert lines == each;
      }
    }
  }

  /** The loop `printnow` falls back to: each styled entry on a line of its own. */
  method WriteEach(indent: string, stats: seq<Stat>) returns (lines: seq<string>)
    ensures |lines| == |stats|
    ensures forall k :: 0 <= k < |stats| ==> lines[k] == indent + "  " + Style(Some(stats[k].style), stats[k].text)
  {
    lines := [];
    var i := 0;
    while i < |stats|
      invariant 0 <= i <= |stats| && |lines| == i
      invariant forall k :: 0 <= k < i ==> lines[k] == indent + "  " + Style(Some(stats[k].style), stats[k].text)
    {
      lines := lines + [indent + "  " + Style(Some(stats[i].style), stats[i].text)];
      i := i + 1;
    }
  }


  /** `RepoSummary(repo, indent)`: the record is fetched with inspection allowed; it
      fails exactly when that fetch does, and summarises the record the fetch leaves. */
  method Summarise(repo: Repo, indent: nat, cache: DiskCache, now: real, out: Outputs)
    returns (r: Result<RepoSummary>)
    modifies repo, cache, repo.insp
    ensures Fetched(repo, cache, now, out, r.Ok?)
    ensures r.Ok? ==>
      && fresh(r.value) && repo.info.Some?
      && r.value.path == repo.path && r.value.indent == seq(indent, _ => ' ')
      && r.value.mainStyle == MainStyle(repo.info.value)
      && r.value.filesChanged == repo.info.value.changed
      && r.value.filesUntracked == repo.info.value.untracked
      && r.value.outgoingInfo == OutgoingShown(repo.info.value.outgoing)
      && r.value.numStashes == repo.info.value.stashes
  {
    var info := repo.GetInfo(true, cache, now, out);
    match info {
      case Err(e) => return Err(e);
      case Ok(v) =>
        match v {
          case Some(record) =>
            var s := new RepoSummary(repo.path, indent, record);
            return Ok(s);
        }
    }
  }
}
