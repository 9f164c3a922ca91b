/** The handful of Python string operations the program relies on, over `seq<char>`. */
module Strings {

  /** Python's `\s` and `str.strip()` whitespace on text (`str.isspace()`): \t to \r, the
      four separators \x1c to \x1f, space, NEL, no-break space and the Unicode spaces and
      line and paragraph separators. */
  predicate IsSpace(c: char) {
    || '\t' <= c <= '\r' || '\U{1C}' <= c <= ' ' || c == '\U{85}' || c == '\U{A0}' || c == '\U{1680}'
    || '\U{2000}' <= c <= '\U{200A}' || c == '\U{2028}' || c == '\U{2029}' || c == '\U{202F}'
    || c == '\U{205F}' || c == '\U{3000}'
  }

  /** Python's `\w`, restricted to ASCII: letters, digits and underscore. */
  predicate IsWordChar(c: char) {
    ('a' <= c <= 'z') || ('A' <= c <= 'Z') || ('0' <= c <= '9') || c == '_'
  }

  predicate IsDigit(c: char) { '0' <= c <= '9' }

  /** `s.endswith(p)` */
  predicate EndsWith(s: string, p: string) {
    |p| <= |s| && s[|s| - |p|..] == p
  }

  /** `p in s` for strings: p occurs somewhere in s. */
  predicate Contains(s: string, p: string)
    decreases |s|
  {
    p <= s || (|s| > 0 && Contains(s[1..], p))
  }

  lemma {:induction false} ContainsAt(s: string, p: string, i: nat)
    requires i + |p| <= |s| && s[i..i + |p|] == p
    ensures Contains(s, p)
    decreases i
  {
    if i > 0 {
      assert s[1..][i - 1..i - 1 + |p|] == s[i..i + |p|];
      ContainsAt(s[1..], p, i - 1);
    }
  }

  /** `s.rstrip()`: the longest prefix of s that does not end in whitespace. */
  function RStrip(s: string): (r: string)
    ensures r <= s
    ensures r == [] || !IsSpace(r[|r| - 1])
    ensures forall i :: |r| <= i < |s| ==> IsSpace(s[i])
  {
    if |s| > 0 && IsSpace(s[|s| - 1]) then RStrip(s[..|s| - 1]) else s
  }

  /** `s.strip()`: the part of s left after cutting the whitespace at both ends. */
  function Strip(s: string): (r: string)
    ensures r == [] || (!IsSpace(r[0]) && !IsSpace(r[|r| - 1]))
    ensures var j := SpanWhile(s, 0, IsSpace);
      && j + |r| <= |s| && r == s[j..j + |r|]
      && (forall k :: 0 <= k < j ==> IsSpace(s[k]))
      && (forall k :: j + |r| <= k < |s| ==> IsSpace(s[k]))
  {
    RStrip(s[SpanWhile(s, 0, IsSpace)..])
  }

  /** The index of the first c in s. */
  function IndexOf(s: string, c: char): (i: nat)
    requires c in s
    ensures i < |s| && s[i] == c && c !in s[..i]
  {
    if s[0] == c then 0 else 1 + IndexOf(s[1..], c)
  }

  /** The index of the last c in s. */
  function LastIndexOf(s: string, c: char): (i: nat)
    requires c in s
    ensures i < |s| && s[i] == c && c !in s[i + 1..]
  {
    if s[|s| - 1] == c then |s| - 1 else LastIndexOf(s[..|s| - 1], c)
  }

  /** `sep.join(parts)` */
  function Join(sep: string, parts: seq<string>): string
  {
    if |parts| == 0 then ""
    else if |parts| == 1 then parts[0]
    else parts[0] + sep + Join(sep, parts[1..])
  }

  /** Text that occurs in t still occurs once something is put in front of t. */
  lemma {:induction false} ContainsAfter(u: string, t: string, p: string)
    requires Contains(t, p)
    ensures Contains(u + t, p)
    decreases |u|
  {
    if |u| == 0 {
      assert u + t == t;
    } else {
      assert (u + t)[1..] == u[1..] + t;
      ContainsAfter(u[1..], t, p);
    }
  }

  /** Every part occurs in the parts joined by any separator. */
  lemma {:induction false} JoinContains(sep: string, parts: seq<string>)
    ensures forall i :: 0 <= i < |parts| ==> Contains(Join(sep, parts), parts[i])
    decreases |parts|
  {
    if |parts| == 1 {
      assert parts[0] <= Join(sep, parts);
    } else if |parts| > 1 {
      var rest := Join(sep, parts[1..]);
      JoinContains(sep, parts[1..]);
      assert Join(sep, parts) == parts[0] + sep + rest;
      assert parts[0] <= Join(sep, parts);
      forall i | 1 <= i < |parts|
        ensures Contains(Join(sep, parts), parts[i])
      {
        assert parts[i] == parts[1..][i - 1];
        ContainsAfter(parts[0] + sep, rest, parts[i]);
      }
    }
  }

  /** `s.split(c)` for a one-character separator: the pieces between the separators. */
  function Split(s: string, c: char): (r: seq<string>)
    ensures |r| >= 1
    ensures forall i :: 0 <= i < |r| ==> c !in r[i]
    ensures Join([c], r) == s
    decreases |s|
  {
    if c !in s then [s]
    else
      var i := IndexOf(s, c);
      var rest := Split(s[i + 1..], c);
      assert s == s[..i] + [c] + s[i + 1..];
      [s[..i]] + rest
  }

  /** Splitting parts joined by a separator none of them contains gives the parts back. */
  lemma {:induction false} SplitJoin(c: char, parts: seq<string>)
    requires |parts| >= 1
    requires forall i :: 0 <= i < |parts| ==> c !in parts[i]
    ensures Split(Join([c], parts), c) == parts
    decreases |parts|
  {
    if |parts| == 1 {
      assert Join([c], parts) == parts[0];
    } else {
      var rest := Join([c], parts[1..]);
      assert Join([c], parts) == parts[0] + [c] + rest;
      SplitFirst(parts[0], c, rest);
      SplitJoin(c, parts[1..]);
      assert parts == [parts[0]] + parts[1..];
    }
  }

  /** Text that starts with a separator-free piece and a separator splits into that piece
      and the pieces of the rest. */
  lemma SplitFirst(first: string, c: char, rest: string)
    requires c !in first
    ensures Split(first + [c] + rest, c) == [first] + Split(rest, c)
  {
    var s := first + [c] + rest;
    assert s[..|first|] == first && s[|first|] == c && s[|first| + 1..] == rest;
    assert IndexOf(s, c) == |first| by {
      var i := IndexOf(s, c);
      assert c !in s[..i];
    }
  }

  /** The end of the run of characters satisfying p that starts at i. */
  function SpanWhile(s: string, i: nat, p: char -> bool): (j: nat)
    requires i <= |s|
    ensures i <= j <= |s|
    ensures forall k :: i <= k < j ==> p(s[k])
    ensures j == |s| || !p(s[j])
    decreases |s| - i
  {
    if i < |s| && p(s[i]) then SpanWhile(s, i + 1, p) else i
  }

  /** `s.split(c, 1)[0]`: everything before the first c (all of s when there is none). */
  function Before(s: string, c: char): (r: string)
    ensures r <= s && c !in r
    ensures |r| < |s| ==> s[|r|] == c
  {
    if c in s then s[..IndexOf(s, c)] else s
  }

  /** `re.split(r'\s+', s)[0]`: everything before the first whitespace character. */
  function FirstToken(s: string): (r: string)
    ensures r <= s
    ensures forall k :: 0 <= k < |r| ==> !IsSpace(r[k])
    ensures |r| < |s| ==> IsSpace(s[|r|])
  {
    s[..SpanWhile(s, 0, c => !IsSpace(c))]
  }

  /** `os.path.basename(p)`: everything after the last '/'. */
  function Basename(p: string): (r: string)
    ensures '/' !in r
    ensures |r| <= |p| && r == p[|p| - |r|..]
    ensures |r| < |p| ==> p[|p| - |r| - 1] == '/'
  {
    if '/' in p then p[LastIndexOf(p, '/') + 1..] else p
  }

  predicate AllSlashes(s: string) { forall k :: 0 <= k < |s| ==> s[k] == '/' }

  /** `s.rstrip('/')` */
  function RStripSlashes(s: string): (r: string)
    ensures r <= s
    ensures r == [] || r[|r| - 1] != '/'
    ensures forall k :: |r| <= k < |s| ==> s[k] == '/'
  {
    if |s| > 0 && s[|s| - 1] == '/' then RStripSlashes(s[..|s| - 1]) else s
  }

  /** `posixpath.dirname(p)`: the part up to the last '/', with trailing slashes removed
      unless that part consists of slashes only. */
  function Dirname(p: string): (r: string)
    ensures r <= p
  {
    var i := if '/' in p then LastIndexOf(p, '/') + 1 else 0;
    var head := p[..i];
    if head != [] && !AllSlashes(head) then RStripSlashes(head) else head
  }

  /** The directory part is what precedes the last component, with its trailing slashes
      cut unless it is made of slashes only (the root, or nothing at all). */
  lemma DirnameSpec(p: string)
    ensures var head := p[..|p| - |Basename(p)|];
      && (AllSlashes(head) ==> Dirname(p) == head)
      && (!AllSlashes(head) ==> Dirname(p) == RStripSlashes(head))
  {
  }

  /** Two slashes in a row, which a resolved path never has. */
  predicate HasDoubleSlash(p: string) {
    exists k :: 0 <= k < |p| - 1 && p[k] == '/' && p[k + 1] == '/'
  }

  /** Taking the directory part strictly shortens every path longer than two characters
      without doubled slashes, and keeps it free of doubled slashes. */
  lemma DirnameShrinks(p: string)
    requires |p| > 2 && !HasDoubleSlash(p)
    ensures |Dirname(p)| < |p|
    ensures !HasDoubleSlash(Dirname(p))
  {
    if '/' in p {
      var i := LastIndexOf(p, '/') + 1;
      var head := p[..i];
      if i == |p| {
        assert !(p[0] == '/' && p[1] == '/');
        assert !AllSlashes(head);
        assert head[|head| - 1] == '/';
      }
    }
    var r := Dirname(p);
    forall k | 0 <= k < |r| - 1
      ensures !(r[k] == '/' && r[k + 1] == '/')
    {
      assert r[k] == p[k] && r[k + 1] == p[k + 1];
    }
  }

  /** `str(n)` for a natural number: its decimal digits. */
  function NatToString(n: nat): (r: string)
    ensures |r| >= 1
    ensures forall k :: 0 <= k < |r| ==> IsDigit(r[k])
    ensures DecimalValue(r) == n
  {
    if n < 10 then [DigitChar(n)]
    else
      var r := NatToString(n / 10) + [DigitChar(n % 10)];
      assert r[..|r| - 1] == NatToString(n / 10);
      r
  }

  function DigitChar(d: nat): (c: char)
    requires d < 10
    ensures IsDigit(c) && (c as int) - ('0' as int) == d
  {
    (('0' as int) + d) as char
  }

  /** The number a string of decimal digits denotes. */
  function DecimalValue(s: string): int
    requires forall k :: 0 <= k < |s| ==> IsDigit(s[k])
  {
    if s == [] then 0
    else DecimalValue(s[..|s| - 1]) * 10 + ((s[|s| - 1] as int) - ('0' as int))
  }
}
