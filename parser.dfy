/** `ParsingService.clean_text` (app/services/parser.py): collapse newline runs, drop the
    characters outside the kept class, strip. Reading the PDF is not part of this model. */
module Parser {
  import opened Text

  /** The class `[\w\s.,;:()\-]` of line 24. */
  predicate Allowed(c: char)
  {
    || IsWordChar(c) || IsSpace(c)
    || c == '.' || c == ',' || c == ';' || c == ':' || c == '(' || c == ')' || c == '-'
  }

  predicate AllAllowed(s: string)
  {
    forall i :: 0 <= i < |s| ==> Allowed(s[i])
  }

  /** No newline follows a newline. */
  predicate NoDoubleNewline(s: string)
  {
    forall i :: 0 <= i < |s| - 1 ==> !(s[i] == '\n' && s[i + 1] == '\n')
  }

  /** `re.sub(r'\n+', '\n', text)` (line 22): every run of newlines becomes one. */
  function CollapseNewlines(s: string): (r: string)
    ensures |r| <= |s| && (r == [] <==> s == [])
    ensures s != [] ==> r[|r| - 1] == s[|s| - 1]
    ensures NoDoubleNewline(r)
  {
    if s == [] then [] else
      var r := CollapseNewlines(s[..|s| - 1]);
      if s[|s| - 1] == '\n' && r != [] && r[|r| - 1] == '\n' then r else r + [s[|s| - 1]]
  }

  /** `re.sub(r'[^\w\s.,;:()\-]', '', text)` (line 24). */
  function RemoveDisallowed(s: string): (r: string)
    ensures AllAllowed(r)
  {
    if s == [] then [] else
      RemoveDisallowed(s[..|s| - 1]) + (if Allowed(s[|s| - 1]) then [s[|s| - 1]] else [])
  }

  /** `clean_text` as written (lines 19-25). */
  function CleanText(s: string): string
  {
    Strip(RemoveDisallowed(CollapseNewlines(s)))
  }

  // ---------------------------------------------------------------------------
  // Subsequences

  /** `a` is `b` with some characters left out. */
  predicate Subseq(a: string, b: string)
    decreases |b|
  {
    a == [] || (b != [] && (Subseq(a, b[..|b| - 1])
      || (a[|a| - 1] == b[|b| - 1] && Subseq(a[..|a| - 1], b[..|b| - 1]))))
  }

  lemma {:induction false} SubseqOfEmpty(a: string)
    requires Subseq(a, [])
    ensures a == []
  {
  }

  lemma {:induction false} SubseqTransitive(a: string, b: string, c: string)
    requires Subseq(a, b) && Subseq(b, c)
    ensures Subseq(a, c)
    decreases |c|
  {
    if a == [] {
    } else if b == [] {
      SubseqOfEmpty(a);
    } else {
      var c' := c[..|c| - 1];
      if Subseq(b, c') {
        SubseqTransitive(a, b, c');
      } else {
        var b' := b[..|b| - 1];
        if Subseq(a, b') {
          SubseqTransitive(a, b', c');
        } else {
          SubseqTransitive(a[..|a| - 1], b', c');
        }
      }
    }
  }

  lemma {:induction false} SubseqRefl(s: string)
    ensures Subseq(s, s)
  {
    if s != [] {
      SubseqRefl(s[..|s| - 1]);
    }
  }

  lemma {:induction false} SliceSubseq(s: string, lo: nat, hi: nat)
    requires lo <= hi <= |s|
    ensures Subseq(s[lo..hi], s)
    decreases |s|
  {
    if lo == hi {
    } else if hi < |s| {
      SliceSubseq(s[..|s| - 1], lo, hi);
      assert s[..|s| - 1][lo..hi] == s[lo..hi];
    } else {
      SliceSubseq(s[..|s| - 1], lo, hi - 1);
      assert s[..|s| - 1][lo..hi - 1] == s[lo..hi][..hi - lo - 1];
    }
  }

  lemma {:induction false} CollapseNewlinesSubseq(s: string)
    ensures Subseq(CollapseNewlines(s), s)
  {
    if s != [] {
      var pre := s[..|s| - 1];
      var r := CollapseNewlines(pre);
      CollapseNewlinesSubseq(pre);
      if !(s[|s| - 1] == '\n' && r != [] && r[|r| - 1] == '\n') {
        assert (r + [s[|s| - 1]])[..|r|] == r;
      }
    }
  }

  lemma {:induction false} RemoveDisallowedSubseq(s: string)
    ensures Subseq(RemoveDisallowed(s), s)
  {
    if s != [] {
      var pre := s[..|s| - 1];
      var r := RemoveDisallowed(pre);
      RemoveDisallowedSubseq(pre);
      if Allowed(s[|s| - 1]) {
        assert (r + [s[|s| - 1]])[..|r|] == r;
      } else {
        assert r + [] == r;
      }
    }
  }

  // ---------------------------------------------------------------------------
  // What `clean_text` promises

  /** The output keeps only word characters, whitespace and `. , ; : ( ) -`, has no space
      at either end, and is the input with characters left out. */
  lemma CleanTextShape(s: string)
    ensures AllAllowed(CleanText(s))
    ensures NoEdgeSpace(CleanText(s))
    ensures Subseq(CleanText(s), s)
  {
    var c := CollapseNewlines(s);
    var f := RemoveDisallowed(c);
    StripKeeps(f);
    StripEdges(f);
    RemoveDisallowedSubseq(c);
    CollapseNewlinesSubseq(s);
    SubseqTransitive(Strip(f), f, c);
    SubseqTransitive(Strip(f), c, s);
  }

  /** Stripping leaves out characters, and keeps the absence of disallowed characters
      and of repeated newlines. */
  lemma StripKeeps(f: string)
    ensures Subseq(Strip(f), f)
    ensures AllAllowed(f) ==> AllAllowed(Strip(f))
    ensures NoDoubleNewline(f) ==> NoDoubleNewline(Strip(f))
  {
    var lo := StripShape(f);
    var hi := lo + |Strip(f)|;
    SliceSubseq(f, lo, hi);
    SliceKeeps(f, lo, hi);
  }

  lemma SliceKeeps(f: string, lo: nat, hi: nat)
    requires lo <= hi <= |f|
    ensures AllAllowed(f) ==> AllAllowed(f[lo..hi])
    ensures NoDoubleNewline(f) ==> NoDoubleNewline(f[lo..hi])
  {
    var r := f[lo..hi];
    assert forall k :: 0 <= k < |r| ==> r[k] == f[lo + k];
  }

  lemma {:induction false} CollapseNewlinesOfClean(s: string)
    requires NoDoubleNewline(s)
    ensures CollapseNewlines(s) == s
  {
    if s != [] {
      var pre := s[..|s| - 1];
      assert NoDoubleNewline(pre) by {
        assert forall i :: 0 <= i < |pre| ==> pre[i] == s[i];
      }
      CollapseNewlinesOfClean(pre);
      if pre != [] {
        assert !(s[|s| - 2] == '\n' && s[|s| - 1] == '\n');
      }
    }
  }

  lemma {:induction false} RemoveDisallowedOfClean(s: string)
    requires AllAllowed(s)
    ensures RemoveDisallowed(s) == s
  {
    if s != [] {
      var pre := s[..|s| - 1];
      assert forall i :: 0 <= i < |pre| ==> pre[i] == s[i];
      RemoveDisallowedOfClean(pre);
      assert Allowed(s[|s| - 1]);
      assert s == pre + [s[|s| - 1]];
    }
  }

  /** Text already made of kept characters, without repeated newlines and without
      surrounding space, is returned unchanged. */
  lemma CleanTextOfClean(s: string)
    requires AllAllowed(s) && NoDoubleNewline(s) && NoEdgeSpace(s)
    ensures CleanText(s) == s
  {
    CollapseNewlinesOfClean(s);
    RemoveDisallowedOfClean(s);
    StripOfStripped(s);
  }

  /** Dropping a character at line 24 can bring two newlines together: the output of
      `clean_text` can hold a repeated newline, and cleaning it again changes it. */
  lemma CleanTextNotIdempotent()
    ensures CleanText("a\n*\nb") == "a\n\nb"
    ensures !NoDoubleNewline(CleanText("a\n*\nb"))
    ensures CleanText(CleanText("a\n*\nb")) == "a\nb"
  {
    CleanTextExample();
    CleanTextAgainExample();
    assert "a\n\nb"[1] == '\n' && "a\n\nb"[2] == '\n';
  }

  lemma CleanTextExample()
    ensures CleanText("a\n*\nb") == "a\n\nb"
  {
    CollapseExample();
    RemoveExample();
    StripOfStripped("a\n\nb");
  }

  lemma CleanTextAgainExample()
    ensures CleanText("a\n\nb") == "a\nb"
  {
    CollapseAgainExample();
    RemoveDisallowedOfClean("a\nb");
    StripOfStripped("a\nb");
  }

  lemma CollapseExample()
    ensures CollapseNewlines("a\n*\nb") == "a\n*\nb"
  {
    assert NoDoubleNewline("a\n*\nb");
    CollapseNewlinesOfClean("a\n*\nb");
  }

  lemma {:induction false} RemoveDisallowedSnoc(s: string, c: char)
    ensures RemoveDisallowed(s + [c]) == RemoveDisallowed(s) + (if Allowed(c) then [c] else [])
  {
    assert (s + [c])[..|s|] == s;
  }

  lemma {:induction false} CollapseNewlinesSnoc(s: string, c: char)
    ensures CollapseNewlines(s + [c]) == (var r := CollapseNewlines(s);
      if c == '\n' && r != [] && r[|r| - 1] == '\n' then r else r + [c])
  {
    assert (s + [c])[..|s|] == s;
  }

  lemma RemoveExample()
    ensures RemoveDisallowed("a\n*\nb") == "a\n\nb"
  {
    RemoveStarExample();
    assert "a\n*\n" == "a\n*" + ['\n'];
    assert Allowed('\n');
    RemoveDisallowedSnoc("a\n*", '\n');
    assert "a\n*\nb" == "a\n*\n" + ['b'];
    assert Allowed('b');
    RemoveDisallowedSnoc("a\n*\n", 'b');
  }

  lemma RemoveStarExample()
    ensures RemoveDisallowed("a\n*") == "a\n"
  {
    RemoveDisallowedOfClean("a\n");
    assert "a\n*" == "a\n" + ['*'];
    StarNotAllowed();
    RemoveDisallowedSnoc("a\n", '*');
  }

  lemma StarNotAllowed()
    ensures !Allowed('*')
  {
  }

  lemma CollapseAgainExample()
    ensures CollapseNewlines("a\n\nb") == "a\nb"
  {
    CollapseDoubleExample();
    assert "a\n\nb" == "a\n\n" + ['b'];
    CollapseNewlinesSnoc("a\n\n", 'b');
  }

  lemma CollapseDoubleExample()
    ensures CollapseNewlines("a\n\n") == "a\n"
  {
    CollapseNewlinesOfClean("a\n");
    assert "a\n\n" == "a\n" + ['\n'];
    CollapseNewlinesSnoc("a\n", '\n');
  }

  // ---------------------------------------------------------------------------
  // The evidently intended cleaning

  /** `clean_text` with the two substitutions in the other order, so that no repeated
      newline survives. */
  function CleanTextFixed(s: string): string
  {
    Strip(CollapseNewlines(RemoveDisallowed(s)))
  }

  lemma CollapseNewlinesKeepsAllowed(s: string)
    requires AllAllowed(s)
    ensures AllAllowed(CollapseNewlines(s))
  {
    CollapseNewlinesSubseq(s);
    SubseqKeepsAllowed(CollapseNewlines(s), s);
  }

  lemma {:induction false} SubseqKeepsAllowed(a: string, b: string)
    requires Subseq(a, b) && AllAllowed(b)
    ensures AllAllowed(a)
    decreases |b|
  {
    if a != [] {
      if Subseq(a, b[..|b| - 1]) {
        SubseqKeepsAllowed(a, b[..|b| - 1]);
      } else {
        SubseqKeepsAllowed(a[..|a| - 1], b[..|b| - 1]);
        assert a == a[..|a| - 1] + [a[|a| - 1]];
      }
    }
  }

  /** The corrected cleaning keeps the promises of the original, leaves no repeated
      newline, and cleaning twice is cleaning once. */
  lemma CleanTextFixedShape(s: string)
    ensures AllAllowed(CleanTextFixed(s)) && NoEdgeSpace(CleanTextFixed(s))
    ensures NoDoubleNewline(CleanTextFixed(s))
    ensures Subseq(CleanTextFixed(s), s)
    ensures CleanTextFixed(CleanTextFixed(s)) == CleanTextFixed(s)
  {
    var f := RemoveDisallowed(s);
    var c := CollapseNewlines(f);
    var r := Strip(c);
    CollapseNewlinesKeepsAllowed(f);
    StripKeeps(c);
    StripEdges(c);
    CollapseNewlinesSubseq(f);
    RemoveDisallowedSubseq(s);
    SubseqTransitive(r, c, f);
    SubseqTransitive(r, f, s);
    CleanTextFixedOfClean(r);
  }

  lemma CleanTextFixedOfClean(s: string)
    requires AllAllowed(s) && NoDoubleNewline(s) && NoEdgeSpace(s)
    ensures CleanTextFixed(s) == s
  {
    RemoveDisallowedOfClean(s);
    CollapseNewlinesOfClean(s);
    StripOfStripped(s);
  }
}
