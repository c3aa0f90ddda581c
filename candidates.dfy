/** Text clean-up, candidate spans and the anchoring check of the skill extractor
    (app/services/skill_extractor.py, `_preprocess`, `_generate_candidates` and
    `_check_anchoring`). The tokens come from spaCy, which is not part of this model: a
    document is the sequence of tokens the tokenizer produced. */
module Candidates {
  import opened Text
  import opened SkillTables

  // ---------------------------------------------------------------------------
  // _preprocess

  /** The punctuation `_preprocess` keeps. */
  predicate IsMark(c: char)
  {
    c == '.' || c == '#' || c == '+' || c == '-' || c == '/'
  }

  /** The class `[\w\s.#+\-/]`: characters the first substitution leaves alone. */
  predicate Kept(c: char)
  {
    IsWordChar(c) || IsSpace(c) || IsMark(c)
  }

  /** `re.sub(r'[^\w\s\.\#\+\-\/]', ' ', text)`. */
  function Mask(s: string): (r: string)
    ensures |r| == |s|
    ensures forall i :: 0 <= i < |s| ==> r[i] == (if Kept(s[i]) then s[i] else ' ')
  {
    seq(|s|, i requires 0 <= i < |s| => if Kept(s[i]) then s[i] else ' ')
  }

  /** `_preprocess`: other characters become spaces, whitespace runs become one space,
      and the ends are stripped. */
  function Preprocess(text: string): string
  {
    Strip(Collapse(Mask(text)))
  }

  /** The characters `_preprocess` can produce. */
  predicate CleanChar(c: char)
  {
    IsWordChar(c) || c == ' ' || IsMark(c)
  }

  predicate AllClean(s: string)
  {
    forall i :: 0 <= i < |s| ==> CleanChar(s[i])
  }

  lemma {:induction false} CollapseKeepsClean(s: string)
    requires forall i :: 0 <= i < |s| ==> Kept(s[i])
    ensures AllClean(Collapse(s))
    decreases |s|
  {
    if |s| > 0 {
      if IsSpace(s[0]) {
        var t := StripLeading(s);
        StripLeadingSuffix(s);
        assert forall i :: 0 <= i < |t| ==> t[i] == s[|s| - |t| + i];
        CollapseKeepsClean(t);
        assert Collapse(s) == [' '] + Collapse(t);
      } else {
        CollapseKeepsClean(s[1..]);
        assert Collapse(s) == [s[0]] + Collapse(s[1..]);
      }
    }
  }

  /** Stripping keeps a clean, single-spaced string clean and single-spaced. */
  lemma StripKeepsSpacing(c: string)
    requires SingleSpaced(c) && AllClean(c)
    ensures SingleSpaced(Strip(c)) && AllClean(Strip(c)) && NoEdgeSpace(Strip(c))
  {
    var lo := StripShape(c);
    SliceKeepsSpacing(c, Strip(c), lo);
  }

  lemma SliceKeepsSpacing(c: string, t: string, lo: nat)
    requires SingleSpaced(c) && AllClean(c)
    requires lo + |t| <= |c| && t == c[lo..lo + |t|]
    ensures SingleSpaced(t) && AllClean(t)
  {
    assert forall i :: 0 <= i < |t| ==> t[i] == c[lo + i];
  }

  /** The output of `_preprocess` holds only word characters, single spaces and the kept
      punctuation, and has no leading, trailing or doubled space. */
  lemma PreprocessShape(text: string)
    ensures AllClean(Preprocess(text))
    ensures SingleSpaced(Preprocess(text)) && NoEdgeSpace(Preprocess(text))
  {
    var m := Mask(text);
    CollapseKeepsClean(m);
    StripKeepsSpacing(Collapse(m));
  }

  /** `_preprocess` is idempotent. */
  lemma PreprocessIdempotent(text: string)
    ensures Preprocess(Preprocess(text)) == Preprocess(text)
  {
    var p := Preprocess(text);
    PreprocessShape(text);
    assert Mask(p) == p;
    CollapseOfSingleSpaced(p);
    StripOfStripped(p);
  }

  // ---------------------------------------------------------------------------
  // _generate_candidates

  /** A spaCy token: its text, lemma and the stop-word and punctuation flags. */
  datatype Token = Token(text: string, lemmaForm: string, isStop: bool, isPunct: bool)

  /** A candidate string with the span [start, end) of tokens it came from. */
  datatype Candidate = Candidate(text: string, start: nat, end: nat)

  /** `[t.text for t in doc]`. */
  function TokenTexts(doc: seq<Token>): (r: seq<string>)
    ensures |r| == |doc|
    ensures forall i :: 0 <= i < |doc| ==> r[i] == doc[i].text
  {
    seq(|doc|, i requires 0 <= i < |doc| => doc[i].text)
  }

  /** The stripped pieces of `parts` of at least two characters, each with span (i, i+1). */
  function SlashParts(parts: seq<string>, i: nat): seq<Candidate>
  {
    if parts == [] then []
    else SlashParts(parts[..|parts| - 1], i) + SlashPart(parts[|parts| - 1], i)
  }

  function SlashPart(part: string, i: nat): seq<Candidate>
  {
    if |Strip(part)| >= 2 then [Candidate(Strip(part), i, i + 1)] else []
  }

  /** The single-token candidates of token `tok` at position `i` (lines 376-390). */
  function SingleOf(tok: Token, i: nat): seq<Candidate>
  {
    if tok.isStop || tok.isPunct then []
    else
      (if |tok.text| >= 2 then [Candidate(tok.text, i, i + 1)] else [])
      + (if '/' in tok.text then SlashParts(SplitOn(tok.text, '/'), i) else [])
  }

  function Singles(doc: seq<Token>): seq<Candidate>
  {
    if doc == [] then [] else Singles(doc[..|doc| - 1]) + SingleOf(doc[|doc| - 1], |doc| - 1)
  }

  /** The slash compounds found by the scan that starts at `i` (lines 393-403). */
  function Compounds(texts: seq<string>, i: nat): seq<Candidate>
    decreases |texts| - i
  {
    if i + 2 < |texts| then
      if texts[i + 1] == "/" then [Candidate(texts[i] + "/" + texts[i + 2], i, i + 3)] + Compounds(texts, i + 3)
      else Compounds(texts, i + 1)
    else []
  }

  /** The `n`-gram starting at `i`, when its joined text has at least three characters. */
  function NGramAt(texts: seq<string>, n: nat, i: nat): seq<Candidate>
    requires i + n <= |texts|
  {
    if |Join(texts[i..i + n], " ")| >= 3 then [Candidate(Join(texts[i..i + n], " "), i, i + n)] else []
  }

  /** The `n`-grams starting before `k`. */
  function NGramsBelow(texts: seq<string>, n: nat, k: nat): seq<Candidate>
    requires k == 0 || k + n <= |texts| + 1
  {
    if k == 0 then [] else NGramsBelow(texts, n, k - 1) + NGramAt(texts, n, k - 1)
  }

  /** `range(len(tokens) - n + 1)`: the starts of the `n`-grams. */
  function Starts(count: nat, n: nat): (k: nat)
    ensures k == 0 || k + n == count + 1
  {
    if count >= n then count - n + 1 else 0
  }

  function NGrams(texts: seq<string>, n: nat): seq<Candidate>
  {
    NGramsBelow(texts, n, Starts(|texts|, n))
  }

  /** Everything `_generate_candidates` returns, in its order. */
  function AllCandidates(doc: seq<Token>): seq<Candidate>
  {
    Singles(doc) + Compounds(TokenTexts(doc), 0)
      + NGrams(TokenTexts(doc), 2) + NGrams(TokenTexts(doc), 3) + NGrams(TokenTexts(doc), 4)
  }

  /** `_generate_candidates`: single tokens, then slash compounds, then n-grams. */
  method GenerateCandidates(doc: seq<Token>) returns (candidates: seq<Candidate>)
    ensures candidates == AllCandidates(doc)
  {
    var tokens := TokenTexts(doc);
    candidates := SingleTokenCandidates(doc);
    var compounds := SlashCompounds(tokens);
    candidates := candidates + compounds;
    var ngrams := NGramCandidates(tokens);
    candidates := candidates + ngrams;
    RegroupFive(Singles(doc), compounds, NGrams(tokens, 2), NGrams(tokens, 3), NGrams(tokens, 4));
  }

  lemma RegroupFive<T>(a: seq<T>, b: seq<T>, c: seq<T>, d: seq<T>, e: seq<T>)
    ensures (a + b) + (c + d + e) == a + b + c + d + e
  {
    assert (a + b) + (c + d + e) == (a + b + c + d) + e;
  }

  /** Step 1 of `_generate_candidates` (lines 376-390). */
  method SingleTokenCandidates(doc: seq<Token>) returns (candidates: seq<Candidate>)
    ensures candidates == Singles(doc)
  {
    candidates := [];
    for i := 0 to |doc|
      invariant candidates == Singles(doc[..i])
    {
      assert doc[..i + 1][..i] == doc[..i];
      var found := TokenCandidates(doc[i], i);
      candidates := candidates + found;
    }
    assert doc[..|doc|] == doc;
  }

  /** The body of step 1 for the token `tok` at position `i`. */
  method TokenCandidates(tok: Token, i: nat) returns (candidates: seq<Candidate>)
    ensures candidates == SingleOf(tok, i)
  {
    candidates := [];
    var text := tok.text;
    if tok.isStop || tok.isPunct {
      return;
    }
    if |text| >= 2 {
      candidates := candidates + [Candidate(text, i, i + 1)];
    }
    if '/' in text {
      var parts := SlashPartCandidates(SplitOn(text, '/'), i);
      candidates := candidates + parts;
    }
  }

  /** The slash splitting of step 1 (lines 385-390). */
  method SlashPartCandidates(parts: seq<string>, i: nat) returns (candidates: seq<Candidate>)
    ensures candidates == SlashParts(parts, i)
  {
    candidates := [];
    for j := 0 to |parts|
      invariant candidates == SlashParts(parts[..j], i)
    {
      assert parts[..j + 1][..j] == parts[..j];
      assert parts[..j + 1][j] == parts[j];
      var found := SlashPartCandidate(parts[j], i);
      candidates := candidates + found;
    }
    assert parts[..|parts|] == parts;
  }

  /** One part of the slash splitting: kept, stripped, when it has two characters. */
  method SlashPartCandidate(part: string, i: nat) returns (found: seq<Candidate>)
    ensures found == SlashPart(part, i)
  {
    found := [];
    var stripped := Strip(part);
    if |stripped| >= 2 {
      found := [Candidate(stripped, i, i + 1)];
    }
  }

  /** Step 2 (lines 393-403): a scan that jumps past every "left / right" it finds. */
  method SlashCompounds(tokens: seq<string>) returns (candidates: seq<Candidate>)
    ensures candidates == Compounds(tokens, 0)
  {
    candidates := [];
    var i := 0;
    while i + 2 < |tokens|
      invariant candidates + Compounds(tokens, i) == Compounds(tokens, 0)
      decreases |tokens| - i
    {
      if tokens[i + 1] == "/" {
        var left := tokens[i];
        var right := tokens[i + 2];
        candidates := candidates + [Candidate(left + "/" + right, i, i + 3)];
        i := i + 3;
      } else {
        i := i + 1;
      }
    }
  }

  /** Step 3 (lines 406-410): the n-grams for n = 2, 3, 4. */
  method NGramCandidates(tokens: seq<string>) returns (candidates: seq<Candidate>)
    ensures candidates == NGrams(tokens, 2) + NGrams(tokens, 3) + NGrams(tokens, 4)
  {
    candidates := [];
    for n := 2 to 5
      invariant candidates == NGramsUpTo(tokens, n)
    {
      var ngrams := NGramsOfSize(tokens, n);
      candidates := candidates + ngrams;
    }
    assert NGramsUpTo(tokens, 3) == NGrams(tokens, 2);
  }

  /** The inner loop of step 3: the `n`-grams from left to right. */
  method NGramsOfSize(tokens: seq<string>, n: nat) returns (candidates: seq<Candidate>)
    ensures candidates == NGrams(tokens, n)
  {
    candidates := [];
    var starts := if |tokens| >= n then |tokens| - n + 1 else 0;
    for k := 0 to starts
      invariant candidates == NGramsBelow(tokens, n, k)
    {
      var ngram := Join(tokens[k..k + n], " ");
      if |ngram| >= 3 {
        candidates := candidates + [Candidate(ngram, k, k + n)];
      }
    }
  }

  /** The n-grams of sizes 2 up to `n` - 1, in the order of the loop over `n`. */
  function NGramsUpTo(texts: seq<string>, n: nat): seq<Candidate>
    decreases n
  {
    if n <= 2 then [] else NGramsUpTo(texts, n - 1) + NGrams(texts, n - 1)
  }

  // ---------------------------------------------------------------------------
  // Properties of the candidates

  lemma {:induction false} SlashPartsShape(parts: seq<string>, i: nat)
    ensures forall c :: c in SlashParts(parts, i) ==>
      c.start == i && c.end == i + 1 && |c.text| >= 2 && NoEdgeSpace(c.text)
  {
    if parts != [] {
      SlashPartsShape(parts[..|parts| - 1], i);
      var _ := StripShape(parts[|parts| - 1]);
    }
  }

  /** A single-token candidate comes from one token that is neither a stop word nor
      punctuation, and has at least two characters. */
  lemma {:induction false} SinglesShape(doc: seq<Token>)
    ensures forall c :: c in Singles(doc) ==>
      c.end == c.start + 1 && c.end <= |doc| && |c.text| >= 2
      && !doc[c.start].isStop && !doc[c.start].isPunct
  {
    if doc != [] {
      var init := doc[..|doc| - 1];
      SinglesShape(init);
      var last := doc[|doc| - 1];
      if !last.isStop && !last.isPunct && '/' in last.text {
        SlashPartsShape(SplitOn(last.text, '/'), |doc| - 1);
      }
    }
  }

  /** A slash compound spans three tokens, the middle one being "/", and reads
      "left/right". */
  lemma {:induction false} CompoundsShape(texts: seq<string>, i: nat)
    ensures forall c :: c in Compounds(texts, i) ==>
      i <= c.start && c.end == c.start + 3 && c.end <= |texts|
      && texts[c.start + 1] == "/" && c.text == texts[c.start] + "/" + texts[c.start + 2]
    decreases |texts| - i
  {
    if i + 2 < |texts| {
      if texts[i + 1] == "/" {
        CompoundsShape(texts, i + 3);
      } else {
        CompoundsShape(texts, i + 1);
      }
    }
  }

  /** Each candidate of `r` ends no later than any later one starts. */
  predicate Apart(r: seq<Candidate>)
  {
    forall j, k :: 0 <= j < k < |r| ==> r[j].end <= r[k].start
  }

  lemma ApartCons(head: Candidate, rest: seq<Candidate>)
    requires Apart(rest)
    requires forall c :: c in rest ==> head.end <= c.start
    ensures Apart([head] + rest)
  {
    var r := [head] + rest;
    forall j, k | 0 <= j < k < |r| ensures r[j].end <= r[k].start {
      assert r[k] == rest[k - 1] && rest[k - 1] in rest;
      if j > 0 {
        assert r[j] == rest[j - 1];
      }
    }
  }

  /** The scan resumes after each compound it finds, so compounds never overlap. */
  lemma {:induction false} CompoundsApart(texts: seq<string>, i: nat)
    ensures Apart(Compounds(texts, i))
    decreases |texts| - i
  {
    if i + 2 < |texts| {
      if texts[i + 1] == "/" {
        CompoundsApart(texts, i + 3);
        CompoundsShape(texts, i + 3);
        ApartCons(Candidate(texts[i] + "/" + texts[i + 2], i, i + 3), Compounds(texts, i + 3));
      } else {
        CompoundsApart(texts, i + 1);
      }
    }
  }

  lemma {:induction false} NGramsBelowShape(texts: seq<string>, n: nat, k: nat)
    requires k == 0 || k + n <= |texts| + 1
    ensures forall c :: c in NGramsBelow(texts, n, k) ==>
      c.end == c.start + n && c.end <= |texts| && |c.text| >= 3
      && c.text == Join(texts[c.start..c.end], " ")
  {
    if k > 0 {
      NGramsBelowShape(texts, n, k - 1);
    }
  }

  /** Every candidate's span lies inside the document: 0 <= start < end <= |doc|; an
      n-gram has two to four tokens and at least three characters. */
  lemma CandidateSpans(doc: seq<Token>)
    ensures forall c :: c in AllCandidates(doc) ==> c.start < c.end <= |doc|
    ensures forall c :: c in NGrams(TokenTexts(doc), 2) + NGrams(TokenTexts(doc), 3) + NGrams(TokenTexts(doc), 4) ==>
      2 <= c.end - c.start <= 4 && |c.text| >= 3
  {
    var t := TokenTexts(doc);
    SinglesShape(doc);
    CompoundsShape(t, 0);
    NGramsBelowShape(t, 2, Starts(|t|, 2));
    NGramsBelowShape(t, 3, Starts(|t|, 3));
    NGramsBelowShape(t, 4, Starts(|t|, 4));
  }

  // ---------------------------------------------------------------------------
  // _check_anchoring

  /** Token `i` is an anchor: its lowercased text or lemma is in `ANCHOR_WORDS`. */
  predicate IsAnchor(tok: Token)
  {
    Lower(tok.text) in AnchorWords || Lower(tok.lemmaForm) in AnchorWords
  }

  /** Position `i` is in the five-token context around [start, end) but not inside it. */
  predicate InContext(n: nat, start: nat, end: nat, i: int)
  {
    start - 5 <= i < end + 5 && 0 <= i < n && !(start <= i < end)
  }

  /** Some anchor lies in the context of [start, end). */
  predicate Anchored(doc: seq<Token>, start: nat, end: nat)
  {
    exists i :: 0 <= i < |doc| && InContext(|doc|, start, end, i) && IsAnchor(doc[i])
  }

  /** `_check_anchoring`: a scan of the context window for an anchor word. */
  method CheckAnchoring(doc: seq<Token>, start: nat, end: nat) returns (anchored: bool)
    ensures anchored == Anchored(doc, start, end)
  {
    var window := 5;
    var contextStart := if start - window > 0 then start - window else 0;
    var contextEnd := if |doc| < end + window then |doc| else end + window;
    var i := contextStart;
    while i < contextEnd
      invariant contextStart <= i
      invariant forall j :: contextStart <= j < i && InContext(|doc|, start, end, j) ==> !IsAnchor(doc[j])
      decreases contextEnd - i
    {
      if start <= i < end {
        i := i + 1;
        continue;
      }
      var tokenText := Lower(doc[i].text);
      if tokenText in AnchorWords {
        assert InContext(|doc|, start, end, i) && IsAnchor(doc[i]);
        return true;
      }
      if Lower(doc[i].lemmaForm) in AnchorWords {
        assert InContext(|doc|, start, end, i) && IsAnchor(doc[i]);
        return true;
      }
      i := i + 1;
    }
    return false;
  }

  /** Anchoring looks at no more than five tokens on either side. */
  lemma AnchorIsNear(doc: seq<Token>, start: nat, end: nat)
    requires forall i :: 0 <= i < |doc| && (start - 5 <= i < start || end <= i < end + 5) ==> !IsAnchor(doc[i])
    ensures !Anchored(doc, start, end)
  {
  }
}
