/** String primitives shared by every service: Python's whitespace, case folding,
    `str.strip()`, `str.split(sep)`, `str.split()`, `sep.join(...)`, substring search
    and the `re.sub(r'\s+', ' ', s)` whitespace collapse.

    Characters are Unicode scalar values; case folding and the regex classes `\s` and `\w`
    are taken on their ASCII part (see README). */
module Text {

  /** Python's ASCII whitespace as seen by `\s` and `str.strip()`: space, \t, \n, \v, \f,
      \r and the four separators U+001C to U+001F. */
  predicate IsSpace(c: char) {
    || c == ' ' || c == '\t' || c == '\n' || c == '\U{000B}' || c == '\U{000C}' || c == '\r'
    || c == '\U{001C}' || c == '\U{001D}' || c == '\U{001E}' || c == '\U{001F}'
  }

  predicate IsAsciiUpper(c: char) { 'A' <= c <= 'Z' }

  /** The regex class `\w`: letters, digits and the underscore. */
  predicate IsWordChar(c: char) {
    'a' <= c <= 'z' || 'A' <= c <= 'Z' || '0' <= c <= '9' || c == '_'
  }

  function LowerChar(c: char): (d: char)
    ensures IsSpace(d) <==> IsSpace(c)
    ensures !IsAsciiUpper(d)
    ensures !IsAsciiUpper(c) ==> d == c
  {
    if IsAsciiUpper(c) then (c as int + 32) as char else c
  }

  /** `str.lower()`. */
  function Lower(s: string): (r: string)
    ensures |r| == |s|
    ensures forall i :: 0 <= i < |s| ==> r[i] == LowerChar(s[i])
  {
    if |s| == 0 then [] else [LowerChar(s[0])] + Lower(s[1..])
  }

  predicate IsAsciiLower(c: char) { 'a' <= c <= 'z' }

  function UpperChar(c: char): (d: char)
    ensures !IsAsciiLower(d)
    ensures !IsAsciiLower(c) ==> d == c
  {
    if IsAsciiLower(c) then (c as int - 32) as char else c
  }

  /** `str.upper()`. */
  function Upper(s: string): (r: string)
    ensures |r| == |s|
    ensures forall i :: 0 <= i < |s| ==> r[i] == UpperChar(s[i])
  {
    if |s| == 0 then [] else [UpperChar(s[0])] + Upper(s[1..])
  }

  /** Upper-casing forgets the case of every letter. */
  lemma UpperIgnoresCase(s: string)
    ensures Upper(Lower(s)) == Upper(s)
  {
    assert forall i :: 0 <= i < |s| ==> UpperChar(LowerChar(s[i])) == UpperChar(s[i]);
  }

  predicate IsLower(s: string) {
    forall i :: 0 <= i < |s| ==> !IsAsciiUpper(s[i])
  }

  lemma LowerIsLower(s: string)
    ensures IsLower(Lower(s))
    ensures Lower(Lower(s)) == Lower(s)
  {
  }

  lemma LowerOfLower(s: string)
    requires IsLower(s)
    ensures Lower(s) == s
  {
  }

  lemma LowerAppend(a: string, b: string)
    ensures Lower(a + b) == Lower(a) + Lower(b)
  {
  }

  // ---------------------------------------------------------------------------
  // str.strip()

  /** `str.lstrip()`: drop leading whitespace. */
  function StripLeading(s: string): (r: string)
    ensures |r| <= |s|
    ensures r == [] || !IsSpace(r[0])
  {
    if |s| > 0 && IsSpace(s[0]) then StripLeading(s[1..]) else s
  }

  lemma StripLeadingSuffix(s: string)
    ensures StripLeading(s) == s[|s| - |StripLeading(s)|..]
  {
    if |s| > 0 && IsSpace(s[0]) {
      StripLeadingSuffix(s[1..]);
    }
  }

  /** `str.rstrip()`: drop trailing whitespace. */
  function StripTrailing(s: string): (r: string)
    ensures |r| <= |s|
    ensures r == [] || !IsSpace(r[|r| - 1])
  {
    if |s| > 0 && IsSpace(s[|s| - 1]) then StripTrailing(s[..|s| - 1]) else s
  }

  lemma StripTrailingPrefix(s: string)
    ensures StripTrailing(s) == s[..|StripTrailing(s)|]
  {
    if |s| > 0 && IsSpace(s[|s| - 1]) {
      StripTrailingPrefix(s[..|s| - 1]);
    }
  }

  lemma StripLeadingSkipsSpace(s: string)
    ensures forall i :: 0 <= i < |s| - |StripLeading(s)| ==> IsSpace(s[i])
  {
    if |s| > 0 && IsSpace(s[0]) {
      StripLeadingSkipsSpace(s[1..]);
      assert forall i :: 1 <= i < |s| ==> s[i] == s[1..][i - 1];
    }
  }

  lemma StripTrailingSkipsSpace(s: string)
    ensures forall i :: |StripTrailing(s)| <= i < |s| ==> IsSpace(s[i])
  {
    if |s| > 0 && IsSpace(s[|s| - 1]) {
      StripTrailingSkipsSpace(s[..|s| - 1]);
    }
  }

  /** `str.strip()`. */
  function Strip(s: string): (r: string)
  {
    StripTrailing(StripLeading(s))
  }

  predicate NoEdgeSpace(s: string) {
    s == [] || (!IsSpace(s[0]) && !IsSpace(s[|s| - 1]))
  }

  predicate AllSpace(s: string) {
    forall i :: 0 <= i < |s| ==> IsSpace(s[i])
  }

  predicate HasNonSpace(s: string) {
    exists i :: 0 <= i < |s| && !IsSpace(s[i])
  }

  /** The stripped string is the slice of `s` between its first and last non-space
      characters, and it is empty exactly when `s` is all whitespace. */
  lemma StripShape(s: string) returns (lo: nat)
    ensures lo + |Strip(s)| <= |s| && Strip(s) == s[lo..lo + |Strip(s)|]
    ensures NoEdgeSpace(Strip(s))
    ensures AllSpace(s[..lo]) && AllSpace(s[lo + |Strip(s)|..])
    ensures Strip(s) == [] <==> AllSpace(s)
  {
    var r := Strip(s);
    lo := StripSlice(s, r);
    assert NoEdgeSpace(r) by { StripEdges(s); }
    StripBlank(s, r, lo);
  }

  lemma StripSlice(s: string, r: string) returns (lo: nat)
    requires r == Strip(s)
    ensures lo + |r| <= |s| && r == s[lo..lo + |r|]
    ensures AllSpace(s[..lo]) && AllSpace(s[lo + |r|..])
  {
    var l := StripLeading(s);
    lo := |s| - |l|;
    assert r == StripTrailing(l);
    assert r == s[lo..lo + |r|] by {
      StripLeadingSuffix(s);
      StripTrailingPrefix(l);
      assert l == s[lo..] && r == l[..|r|];
    }
    StripLeadingSuffix(s);
    StripLeadingSkipsSpace(s);
    AllSpaceSlice(s, 0, lo);
    StripTrailingSkipsSpace(l);
    forall i | lo + |r| <= i < |s| ensures IsSpace(s[i]) {
      assert s[i] == l[i - lo];
    }
    AllSpaceSlice(s, lo + |r|, |s|);
  }

  lemma StripEdges(s: string)
    ensures NoEdgeSpace(Strip(s))
  {
    var l := StripLeading(s);
    var r := StripTrailing(l);
    if r != [] {
      StripTrailingPrefix(l);
      assert r[0] == l[0];
    }
  }

  lemma StripBlank(s: string, r: string, lo: nat)
    requires NoEdgeSpace(r) && lo + |r| <= |s| && r == s[lo..lo + |r|]
    requires AllSpace(s[..lo]) && AllSpace(s[lo + |r|..])
    ensures r == [] <==> AllSpace(s)
  {
    if r == [] {
      forall i | 0 <= i < |s| ensures IsSpace(s[i]) {
        if i < lo {
          assert s[i] == s[..lo][i];
        } else {
          assert s[i] == s[lo..][i - lo];
        }
      }
    } else {
      assert s[lo] == r[0];
    }
  }

  lemma AllSpaceSlice(s: string, i: nat, j: nat)
    requires i <= j <= |s|
    requires forall k :: i <= k < j ==> IsSpace(s[k])
    ensures AllSpace(s[i..j])
  {
    assert forall k :: 0 <= k < j - i ==> s[i..j][k] == s[i + k];
  }

  lemma StripOfStripped(s: string)
    requires NoEdgeSpace(s)
    ensures Strip(s) == s
  {
  }

  lemma StripIdempotent(s: string)
    ensures Strip(Strip(s)) == Strip(s)
  {
    var _ := StripShape(s);
    StripOfStripped(Strip(s));
  }

  lemma StripLeadingLower(s: string)
    ensures StripLeading(Lower(s)) == Lower(StripLeading(s))
  {
    if |s| > 0 && IsSpace(s[0]) {
      assert Lower(s)[1..] == Lower(s[1..]);
      StripLeadingLower(s[1..]);
    }
  }

  lemma StripTrailingLower(s: string)
    ensures StripTrailing(Lower(s)) == Lower(StripTrailing(s))
  {
    if |s| > 0 && IsSpace(s[|s| - 1]) {
      assert Lower(s)[..|s| - 1] == Lower(s[..|s| - 1]);
      StripTrailingLower(s[..|s| - 1]);
    }
  }

  /** Case folding never touches whitespace, so stripping and lowering commute. */
  lemma StripLower(s: string)
    ensures Strip(Lower(s)) == Lower(Strip(s))
  {
    StripLeadingLower(s);
    StripTrailingLower(StripLeading(s));
  }

  lemma StripTrailingAppend(a: string, b: string)
    requires HasNonSpace(b)
    ensures StripTrailing(a + b) == a + StripTrailing(b)
    decreases |b|
  {
    var i :| 0 <= i < |b| && !IsSpace(b[i]);
    if IsSpace(b[|b| - 1]) {
      assert (a + b)[..|a + b| - 1] == a + b[..|b| - 1];
      assert (a + b)[|a + b| - 1] == b[|b| - 1];
      assert b[..|b| - 1][i] == b[i];
      StripTrailingAppend(a, b[..|b| - 1]);
    }
  }

  lemma {:induction false} StripLeadingAppend(a: string, b: string)
    requires AllSpace(a)
    ensures StripLeading(a + b) == StripLeading(b)
  {
    if |a| > 0 {
      assert (a + b)[0] == a[0];
      assert IsSpace(a[0]);
      assert StripLeading(a + b) == StripLeading((a + b)[1..]);
      assert (a + b)[1..] == a[1..] + b;
      AllSpaceSlice(a, 1, |a|);
      assert a[1..|a|] == a[1..];
      StripLeadingAppend(a[1..], b);
    } else {
      assert a + b == b;
    }
  }

  // ---------------------------------------------------------------------------
  // re.sub(r'\s+', ' ', s)

  /** Every whitespace character is a plain space and no two spaces are adjacent. */
  predicate SingleSpaced(s: string) {
    && (forall i :: 0 <= i < |s| && IsSpace(s[i]) ==> s[i] == ' ')
    && (forall i :: 0 <= i < |s| - 1 ==> !(s[i] == ' ' && s[i + 1] == ' '))
  }

  /** `re.sub(r'\s+', ' ', s)`: every maximal run of whitespace becomes one space. */
  function Collapse(s: string): (r: string)
    ensures r == [] <==> s == []
    ensures |s| > 0 ==> (r[0] == ' ' <==> IsSpace(s[0]))
    ensures SingleSpaced(r)
    decreases |s|
  {
    if |s| == 0 then []
    else if IsSpace(s[0]) then [' '] + Collapse(StripLeading(s))
    else [s[0]] + Collapse(s[1..])
  }

  lemma CollapseOfSingleSpaced(s: string)
    requires SingleSpaced(s)
    ensures Collapse(s) == s
  {
    if |s| > 0 {
      assert SingleSpaced(s[1..]);
      if IsSpace(s[0]) {
        assert |s| > 1 ==> !IsSpace(s[1]);
        assert StripLeading(s) == s[1..];
      }
      CollapseOfSingleSpaced(s[1..]);
    }
  }

  lemma CollapseIdempotent(s: string)
    ensures Collapse(Collapse(s)) == Collapse(s)
  {
    CollapseOfSingleSpaced(Collapse(s));
  }

  lemma CollapseLower(s: string)
    ensures Collapse(Lower(s)) == Lower(Collapse(s))
    decreases |s|
  {
    if |s| > 0 {
      if IsSpace(s[0]) {
        StripLeadingLower(s);
        CollapseLower(StripLeading(s));
      } else {
        assert Lower(s)[1..] == Lower(s[1..]);
        CollapseLower(s[1..]);
      }
    }
  }

  lemma CollapseNonSpaceStart(s: string)
    requires |s| > 0 && !IsSpace(s[0])
    ensures HasNonSpace(Collapse(s))
  {
    assert !IsSpace(Collapse(s)[0]);
  }

  lemma CollapseSpacePrefix(a: string, b: string)
    requires |a| > 0 && AllSpace(a) && (b == [] || !IsSpace(b[0]))
    ensures Collapse(a + b) == [' '] + Collapse(b)
  {
    StripLeadingAppend(a, b);
    assert StripLeading(b) == b;
  }

  /** Collapsing and stripping commute: the run at either end collapses to one space,
      which strip then removes. */
  lemma StripCollapse(s: string)
    ensures Strip(Collapse(s)) == Collapse(Strip(s))
  {
    StripLeadingCollapse(s);
    StripTrailingCollapse(StripLeading(s));
  }

  lemma StripLeadingCollapse(s: string)
    ensures StripLeading(Collapse(s)) == Collapse(StripLeading(s))
  {
    if |s| > 0 && IsSpace(s[0]) {
      var t := StripLeading(s);
      assert StripLeading(t) == t;
      assert Collapse(t) == [] || !IsSpace(Collapse(t)[0]);
      assert StripLeading(Collapse(s)) == StripLeading(Collapse(s)[1..]);
      assert StripLeading(Collapse(t)) == Collapse(t);
    }
  }

  lemma StripTrailingCollapse(s: string)
    ensures StripTrailing(Collapse(s)) == Collapse(StripTrailing(s))
    decreases |s|, 1
  {
    if |s| == 0 {
    } else if !IsSpace(s[0]) {
      StripTrailingCollapseWord(s);
    } else {
      StripTrailingCollapseSpace(s);
    }
  }

  lemma StripTrailingCollapseWord(s: string)
    requires |s| > 0 && !IsSpace(s[0])
    ensures StripTrailing(Collapse(s)) == Collapse(StripTrailing(s))
    decreases |s|, 0
  {
    StripTrailingCollapse(s[1..]);
    StripTrailingFrontKept(Collapse(s));
    assert Collapse(s)[1..] == Collapse(s[1..]);
    StripTrailingFrontKept(s);
    var u := StripTrailing(s[1..]);
    assert ([s[0]] + u)[1..] == u;
  }

  lemma StripTrailingCollapseSpace(s: string)
    requires |s| > 0 && IsSpace(s[0])
    ensures StripTrailing(Collapse(s)) == Collapse(StripTrailing(s))
    decreases |s|, 0
  {
    var t := StripLeading(s);
    if t == [] {
      StripTrailingCollapseBlank(s);
    } else {
      var pre := s[..|s| - |t|];
      assert s == pre + t by {
        StripLeadingSuffix(s);
      }
      assert StripTrailing(Collapse(t)) == Collapse(StripTrailing(t)) by {
        StripTrailingCollapse(t);
      }
      assert |pre| > 0 && AllSpace(pre) && !IsSpace(t[0]) by {
        StripLeadingSkipsSpace(s);
        AllSpaceSlice(s, 0, |s| - |t|);
      }
      StripTrailingCollapseSpaceRun(pre, t);
    }
  }

  lemma StripTrailingCollapseBlank(s: string)
    requires |s| > 0 && IsSpace(s[0]) && StripLeading(s) == []
    ensures StripTrailing(Collapse(s)) == Collapse(StripTrailing(s))
  {
    StripLeadingSkipsSpace(s);
    assert !HasNonSpace(s);
    StripTrailingAll(s);
    assert Collapse(s) == [' '] + Collapse([]);
    assert StripTrailing([' ']) == StripTrailing([]);
  }

  lemma StripTrailingCollapseSpaceRun(pre: string, t: string)
    requires |pre| > 0 && AllSpace(pre) && |t| > 0 && !IsSpace(t[0])
    requires StripTrailing(Collapse(t)) == Collapse(StripTrailing(t))
    ensures StripTrailing(Collapse(pre + t)) == Collapse(StripTrailing(pre + t))
  {
    CollapseSpacePrefix(pre, t);
    CollapseNonSpaceStart(t);
    StripTrailingAppend([' '], Collapse(t));
    assert HasNonSpace(t) by { assert !IsSpace(t[0]); }
    StripTrailingAppend(pre, t);
    var u := StripTrailing(t);
    assert u != [] && u[0] == t[0];
    CollapseSpacePrefix(pre, u);
  }

  lemma StripTrailingAll(s: string)
    requires !HasNonSpace(s)
    ensures StripTrailing(s) == []
  {
    if |s| > 0 {
      assert IsSpace(s[|s| - 1]);
      assert forall k :: 0 <= k < |s| - 1 ==> s[..|s| - 1][k] == s[k];
      StripTrailingAll(s[..|s| - 1]);
    }
  }

  /** When `s` starts with a non-space character, right-stripping keeps that character. */
  lemma StripTrailingFrontKept(s: string)
    requires |s| > 0 && !IsSpace(s[0])
    ensures StripTrailing(s) == [s[0]] + StripTrailing(s[1..])
  {
    if HasNonSpace(s[1..]) {
      StripTrailingAppend([s[0]], s[1..]);
      assert [s[0]] + s[1..] == s;
    } else {
      StripTrailingAll(s[1..]);
      StripTrailingSingleAfter(s);
    }
  }

  lemma StripTrailingSingleAfter(s: string)
    requires |s| > 0 && !IsSpace(s[0]) && !HasNonSpace(s[1..])
    ensures StripTrailing(s) == [s[0]]
    decreases |s|
  {
    if |s| > 1 {
      assert IsSpace(s[1..][|s| - 2]);
      assert forall k :: 0 <= k < |s| - 2 ==> s[..|s| - 1][1..][k] == s[1..][k];
      StripTrailingSingleAfter(s[..|s| - 1]);
    }
  }

  /** The folding `normalize` applies before its lookup: strip, lower, collapse. */
  function Fold(s: string): string {
    Collapse(Lower(Strip(s)))
  }

  lemma FoldIgnoresCase(s: string)
    ensures Fold(Lower(s)) == Fold(s)
  {
    StripLower(s);
    LowerIsLower(Strip(s));
  }

  lemma FoldIgnoresSurroundingSpace(s: string)
    ensures Fold(Strip(s)) == Fold(s)
  {
    StripIdempotent(s);
  }

  lemma FoldIgnoresRunLength(s: string)
    ensures Fold(Collapse(s)) == Fold(s)
  {
    StripCollapse(s);
    CollapseLower(Strip(s));
    CollapseIdempotent(Lower(Strip(s)));
  }

  lemma FoldEmpty(s: string)
    ensures Fold(s) == [] <==> AllSpace(s)
  {
    var _ := StripShape(s);
  }

  // ---------------------------------------------------------------------------
  // str.split(sep), re.split('[...]', s), sep.join(parts), str.split()

  /** `re.split('[seps]', s)` (and `s.split(c)` for `seps == {c}`): the pieces between
      separator characters, empty pieces included; never an empty list. */
  function Split(s: string, seps: set<char>): (r: seq<string>)
    ensures |r| > 0
    ensures forall i :: 0 <= i < |r| ==> forall j :: 0 <= j < |r[i]| ==> r[i][j] !in seps
  {
    if |s| == 0 then [[]]
    else
      var rest := Split(s[1..], seps);
      if s[0] in seps then [[]] + rest else [[s[0]] + rest[0]] + rest[1..]
  }

  function SplitOn(s: string, c: char): (r: seq<string>)
  {
    Split(s, {c})
  }

  /** `sep.join(parts)`. */
  function Join(parts: seq<string>, sep: string): string
  {
    if |parts| == 0 then []
    else if |parts| == 1 then parts[0]
    else parts[0] + sep + Join(parts[1..], sep)
  }

  lemma SplitNoSeparator(s: string, seps: set<char>)
    requires forall j :: 0 <= j < |s| ==> s[j] !in seps
    ensures Split(s, seps) == [s]
  {
    if |s| > 0 {
      SplitNoSeparator(s[1..], seps);
      assert [s[0]] + s[1..] == s;
    }
  }

  lemma SplitAfterPiece(a: string, c: char, b: string, seps: set<char>)
    requires c in seps
    requires forall j :: 0 <= j < |a| ==> a[j] !in seps
    ensures Split(a + [c] + b, seps) == [a] + Split(b, seps)
  {
    if |a| == 0 {
      assert a + [c] + b == [c] + b;
      assert ([c] + b)[1..] == b;
    } else {
      assert (a + [c] + b)[1..] == a[1..] + [c] + b;
      SplitAfterPiece(a[1..], c, b, seps);
      assert [a[0]] + a[1..] == a;
    }
  }

  /** Joining separator-free pieces with one separator and splitting again gives the
      pieces back. */
  lemma SplitJoin(parts: seq<string>, c: char)
    requires |parts| > 0
    requires forall i :: 0 <= i < |parts| ==> c !in parts[i]
    ensures SplitOn(Join(parts, [c]), c) == parts
  {
    if |parts| == 1 {
      SplitNoSeparator(parts[0], {c});
    } else {
      SplitJoin(parts[1..], c);
      SplitAfterPiece(parts[0], c, Join(parts[1..], [c]), {c});
    }
  }

  lemma JoinNonEmpty(parts: seq<string>, sep: string)
    requires |parts| > 0 && parts[0] != []
    ensures Join(parts, sep) != []
  {
  }

  /** The characters of a joined string come from the parts or the separator. */
  lemma JoinChars(parts: seq<string>, sep: string, ch: char)
    requires ch in Join(parts, sep)
    ensures ch in sep || exists i :: 0 <= i < |parts| && ch in parts[i]
  {
    if |parts| > 1 {
      var rest := Join(parts[1..], sep);
      if ch !in parts[0] && ch !in sep {
        assert ch in rest;
        JoinChars(parts[1..], sep, ch);
        var i :| 0 <= i < |parts[1..]| && ch in parts[1..][i];
        assert ch in parts[i + 1];
      }
    }
  }

  /** `str.split()` with no argument: the maximal runs of non-whitespace. */
  function Words(s: string): (r: seq<string>)
    decreases |s|
  {
    if |s| == 0 then []
    else if IsSpace(s[0]) then Words(s[1..])
    else
      var w := TakeWord(s);
      [w] + Words(s[|w|..])
  }

  function TakeWord(s: string): (w: string)
    requires |s| > 0 && !IsSpace(s[0])
    ensures 0 < |w| <= |s| && w == s[..|w|]
    ensures forall i :: 0 <= i < |w| ==> !IsSpace(w[i])
    ensures |w| == |s| || IsSpace(s[|w|])
  {
    if |s| == 1 || IsSpace(s[1]) then s[..1] else [s[0]] + TakeWord(s[1..])
  }

  lemma WordsIgnoreCase(s: string)
    ensures |Words(Lower(s))| == |Words(s)|
    decreases |s|
  {
    if |s| > 0 {
      assert Lower(s)[1..] == Lower(s[1..]);
      if IsSpace(s[0]) {
        WordsIgnoreCase(s[1..]);
      } else {
        var w := TakeWord(s);
        TakeWordLower(s);
        assert Lower(s)[|w|..] == Lower(s[|w|..]);
        WordsIgnoreCase(s[|w|..]);
      }
    }
  }

  lemma TakeWordLower(s: string)
    requires |s| > 0 && !IsSpace(s[0])
    ensures |TakeWord(Lower(s))| == |TakeWord(s)|
  {
    if |s| > 1 && !IsSpace(s[1]) {
      assert Lower(s)[1..] == Lower(s[1..]);
      TakeWordLower(s[1..]);
    }
  }

  // ---------------------------------------------------------------------------
  // substrings

  /** Python's `sub in s` on strings. */
  predicate Contains(s: string, sub: string) {
    exists i :: 0 <= i <= |s| && sub <= s[i..]
  }

  predicate StartsWith(s: string, prefix: string) {
    prefix <= s
  }

  lemma ContainsEmpty(s: string)
    ensures Contains(s, [])
  {
    assert [] <= s[0..];
  }

  lemma ContainsSelf(s: string)
    ensures Contains(s, s)
  {
    assert s <= s[0..];
  }

  /** `[p.strip() for p in parts if p.strip()]`. */
  function NonBlankStripped(parts: seq<string>): (r: seq<string>)
    ensures forall x :: x in r ==> x != [] && exists p :: p in parts && x == Strip(p)
  {
    if parts == [] then [] else
      NonBlankStripped(parts[..|parts| - 1])
      + (if Strip(parts[|parts| - 1]) != [] then [Strip(parts[|parts| - 1])] else [])
  }

  /** The comprehension keeps the input's order and its duplicates: the result for a
      concatenation is the concatenation of the results, and one piece gives its stripped
      form when that is not empty. */
  lemma {:induction false} NonBlankStrippedAppend(a: seq<string>, b: seq<string>)
    ensures NonBlankStripped(a + b) == NonBlankStripped(a) + NonBlankStripped(b)
    ensures |b| == 1 ==> NonBlankStripped(b) == if Strip(b[0]) != [] then [Strip(b[0])] else []
  {
    if b == [] {
      assert a + b == a;
    } else {
      assert (a + b)[..|a + b| - 1] == a + b[..|b| - 1];
      assert (a + b)[|a + b| - 1] == b[|b| - 1];
      NonBlankStrippedAppend(a, b[..|b| - 1]);
    }
    if |b| == 1 {
      assert b[..0] == [];
      assert NonBlankStripped(b[..0]) == [];
    }
  }

  /** The pieces `NonBlankStripped` keeps from a split on `c` are not empty, have no space
      at either end and hold no `c`. */
  lemma NonBlankStrippedPieces(s: string, c: char)
    ensures forall x :: x in NonBlankStripped(SplitOn(s, c)) ==> x != [] && NoEdgeSpace(x) && c !in x
  {
    forall x | x in NonBlankStripped(SplitOn(s, c)) ensures x != [] && NoEdgeSpace(x) && c !in x {
      var parts := SplitOn(s, c);
      var p :| p in parts && x == Strip(p);
      var lo := StripShape(p);
      var i :| 0 <= i < |parts| && parts[i] == p;
      assert forall k :: 0 <= k < |x| ==> x[k] == p[lo + k];
    }
  }

  /** Every piece that is not blank is kept, stripped. */
  lemma {:induction false} NonBlankStrippedKeeps(parts: seq<string>, p: string)
    requires p in parts && Strip(p) != []
    ensures Strip(p) in NonBlankStripped(parts)
  {
    if parts[|parts| - 1] != p {
      NonBlankStrippedKeeps(parts[..|parts| - 1], p);
    }
  }
}
