/** The resume segmenter (app/services/resume_segmenter.py): a line-by-line scan that
    sorts the lines of a resume into blocks of four trust levels. */
module Segmenter {
  import opened Text
  import opened Wrappers

  datatype SectionType = Primary | Secondary | Tertiary | Unknown

  /** The members of `SectionType` in declaration order, which is also the key order of
      the dictionary `segment` returns. */
  const SectionTypes: seq<SectionType> := [Primary, Secondary, Tertiary, Unknown]

  // ---------------------------------------------------------------------------
  // Header names. Every header regex is a literal or a literal followed by `s?`, so each
  // set below lists the strings its regexes match in full.

  const PrimaryHeaders: set<string> := {
    "skill", "skills", "technical skill", "technical skills", "technologies", "tech stack",
    "core competencies", "expertise", "programming languages", "tools & technologies",
    "technology stack"
  }

  const SecondaryHeaders: set<string> := {
    "experience", "work experience", "employment", "professional experience",
    "work history", "project", "projects", "personal project", "personal projects",
    "key projects"
  }

  const TertiaryHeaders: set<string> := {
    "summary", "profile", "about me", "education", "achievement", "achievements",
    "certification", "certifications", "award", "awards", "interest", "interests",
    "language", "languages", "reference", "references", "volunteer", "publication",
    "publications"
  }

  function HeaderNames(t: SectionType): set<string>
  {
    match t
    case Primary => PrimaryHeaders
    case Secondary => SecondaryHeaders
    case Tertiary => TertiaryHeaders
    case Unknown => {}
  }

  /** `str.strip(':')`. */
  function TrimColons(s: string): (r: string)
    ensures r == [] || (r[0] != ':' && r[|r| - 1] != ':')
    ensures |r| <= |s|
    decreases |s|
  {
    if |s| > 0 && s[0] == ':' then TrimColons(s[1..])
    else if |s| > 0 && s[|s| - 1] == ':' then TrimColons(s[..|s| - 1])
    else s
  }

  /** The string `_detect_header` compares with the header names. */
  function HeaderKey(line: string): string
  {
    Strip(TrimColons(Lower(line)))
  }

  /** `_detect_header`: lines of more than five words are never headers; otherwise the
      header names are tried PRIMARY, then SECONDARY, then TERTIARY. */
  function DetectHeader(line: string): Option<SectionType>
  {
    if |Words(line)| > 5 then None else HeaderType(HeaderKey(line))
  }

  /** The first type, in the order PRIMARY, SECONDARY, TERTIARY, whose names hold `key`. */
  function HeaderType(key: string): Option<SectionType>
  {
    if key in PrimaryHeaders then Some(Primary)
    else if key in SecondaryHeaders then Some(Secondary)
    else if key in TertiaryHeaders then Some(Tertiary)
    else None
  }

  /** A header is a line of at most five words whose key is a header name; the first
      type, in the order PRIMARY, SECONDARY, TERTIARY, whose names hold the key wins. */
  lemma DetectHeaderMeaning(line: string)
    ensures |Words(line)| > 5 ==> DetectHeader(line) == None
    ensures DetectHeader(line).Some? ==>
      DetectHeader(line).value != Unknown && HeaderKey(line) in HeaderNames(DetectHeader(line).value)
    ensures |Words(line)| <= 5 && (exists t :: HeaderKey(line) in HeaderNames(t)) ==> DetectHeader(line).Some?
    ensures DetectHeader(line) == Some(Secondary) ==> HeaderKey(line) !in PrimaryHeaders
    ensures DetectHeader(line) == Some(Tertiary) ==> HeaderKey(line) !in PrimaryHeaders + SecondaryHeaders
  {
    if |Words(line)| <= 5 && exists t :: HeaderKey(line) in HeaderNames(t) {
      var t :| HeaderKey(line) in HeaderNames(t);
      assert t != Unknown;
    }
  }

  /** Header detection does not depend on case. */
  lemma DetectHeaderIgnoresCase(line: string)
    ensures DetectHeader(Lower(line)) == DetectHeader(line)
  {
    WordsIgnoreCase(line);
    LowerIsLower(line);
  }

  // ---------------------------------------------------------------------------
  // PRIMARY_LINE_PATTERNS

  /** The alternatives of the first pattern, each anchored at the start of the line. */
  const LeadWords: set<string> := {"technologies", "tech stack", "built with", "tools", "stack"}

  /** `\s*[:\-]` matches at the start of `s`. */
  predicate ColonOrDashAfterSpace(s: string)
  {
    |StripLeading(s)| > 0 && (StripLeading(s)[0] == ':' || StripLeading(s)[0] == '-')
  }

  /** `^(?:technologies|tech stack|built with|tools|stack)\s*[:\-]` searched in `l`. */
  predicate LeadPattern(l: string)
  {
    exists w :: w in LeadWords && w <= l && ColonOrDashAfterSpace(l[|w|..])
  }

  /** `environment\s*[:\-]` matches at position `i` of `l`. */
  predicate EnvironmentAt(l: string, i: int)
  {
    0 <= i && i + 11 <= |l| && l[i..i + 11] == "environment" && ColonOrDashAfterSpace(l[i + 11..])
  }

  /** `environment\s*[:\-]` searched in `l`. */
  predicate EnvironmentPattern(l: string)
  {
    exists i :: 0 <= i <= |l| && EnvironmentAt(l, i)
  }

  /** `_is_primary_line`: either pattern found in the lowercased line. */
  predicate IsPrimaryLine(line: string)
  {
    LeadPattern(Lower(line)) || EnvironmentPattern(Lower(line))
  }

  lemma IsPrimaryLineIgnoresCase(line: string)
    ensures IsPrimaryLine(Lower(line)) == IsPrimaryLine(line)
  {
    LowerIsLower(line);
  }

  // ---------------------------------------------------------------------------
  // The scan, as a function of the lines

  /** One value per section type: the dictionary keyed by `SectionType` that `segment`
      builds and returns. */
  datatype PerType<V> = PerType(primary: V, secondary: V, tertiary: V, unknown: V)
  {
    function Get(t: SectionType): V
    {
      match t
      case Primary => primary
      case Secondary => secondary
      case Tertiary => tertiary
      case Unknown => unknown
    }

    function Set(t: SectionType, v: V): (r: PerType<V>)
      ensures r.Get(t) == v
      ensures forall u :: u != t ==> r.Get(u) == Get(u)
    {
      match t
      case Primary => this.(primary := v)
      case Secondary => this.(secondary := v)
      case Tertiary => this.(tertiary := v)
      case Unknown => this.(unknown := v)
    }
  }

  /** The blocks of each type, still as lists of lines. */
  type Blocks = PerType<seq<seq<string>>>

  const NoBlocks: Blocks := PerType([], [], [], [])

  /** The loop state: the blocks emitted so far, `current_type` and `current_buffer`. */
  datatype Scan = Scan(blocks: Blocks, current: SectionType, buffer: seq<string>)

  /** A non-empty buffer becomes a block of the current type. */
  function Flush(s: Scan): Blocks
  {
    if s.buffer != [] then s.blocks.Set(s.current, s.blocks.Get(s.current) + [s.buffer]) else s.blocks
  }

  /** What the loop in `segment` makes of one line. */
  datatype LineKind =
    | Blank                                   // nothing but whitespace
    | Header(section: SectionType, kept: bool, text: string) // a header; `kept` when it contains ':'
    | Promoted(text: string)                                  // a PRIMARY_LINE_PATTERNS match
    | Content(text: string)                                   // any other line

  /** The stripped line, classified as in lines 66-91. */
  function Classify(line: string): LineKind
  {
    KindOf(Strip(line))
  }

  /** The classification of an already stripped line. */
  function KindOf(stripped: string): LineKind
  {
    if stripped == [] then Blank
    else if DetectHeader(stripped).Some? then Header(DetectHeader(stripped).value, ':' in stripped, stripped)
    else if IsPrimaryLine(stripped) then Promoted(stripped)
    else Content(stripped)
  }

  /** The classification in terms of the stripped line. */
  lemma ClassifyMeaning(line: string)
    ensures Classify(line).Blank? <==> Strip(line) == []
    ensures Classify(line).Header? <==> Strip(line) != [] && DetectHeader(Strip(line)).Some?
    ensures Classify(line).Header? ==>
      Classify(line).section == DetectHeader(Strip(line)).value && (Classify(line).kept <==> ':' in Strip(line))
    ensures Classify(line).Promoted? <==> Strip(line) != [] && DetectHeader(Strip(line)).None? && IsPrimaryLine(Strip(line))
    ensures !Classify(line).Blank? ==> Classify(line).text == Strip(line)
  {
  }

  /** One iteration of the loop in `segment` (lines 66-91), on the classified line. */
  function Step(s: Scan, k: LineKind): Scan
  {
    match k
    case Blank => s
    case Header(h, kept, text) => Scan(Flush(s), h, if kept then [text] else [])
    case Promoted(text) => Scan(s.blocks.Set(Primary, s.blocks.primary + [[text]]), s.current, s.buffer)
    case Content(text) => Scan(s.blocks, s.current, s.buffer + [text])
  }

  /** The classified lines of a text, in order. */
  function Kinds(lines: seq<string>): (r: seq<LineKind>)
    ensures |r| == |lines|
    ensures forall j :: 0 <= j < |lines| ==> r[j] == Classify(lines[j])
  {
    seq(|lines|, j requires 0 <= j < |lines| => Classify(lines[j]))
  }

  /** The loop state after the classified lines `ks`. */
  function Run(ks: seq<LineKind>): Scan
  {
    if ks == [] then Scan(NoBlocks, Unknown, [])
    else Step(Run(ks[..|ks| - 1]), ks[|ks| - 1])
  }

  /** The blocks `segment` emits, before each is joined with newlines. */
  function SegmentBlocks(text: string): Blocks
  {
    if text == [] then NoBlocks else Flush(Run(Kinds(SplitOn(text, '\n'))))
  }

  /** `'\n'.join(...)` of every block of one type. */
  function Texts(bs: seq<seq<string>>): (r: seq<string>)
    ensures |r| == |bs|
  {
    if bs == [] then [] else Texts(bs[..|bs| - 1]) + [Join(bs[|bs| - 1], "\n")]
  }

  lemma TextsAppend(bs: seq<seq<string>>, b: seq<string>)
    ensures Texts(bs + [b]) == Texts(bs) + [Join(b, "\n")]
  {
    assert (bs + [b])[..|bs|] == bs;
  }

  lemma TextsIndex(bs: seq<seq<string>>, k: nat)
    requires k < |bs|
    ensures Texts(bs)[k] == Join(bs[k], "\n")
  {
    if k < |bs| - 1 { TextsIndex(bs[..|bs| - 1], k); }
  }

  /** The dictionary `segment` returns for the blocks `b`. */
  function Render(b: Blocks): PerType<seq<string>>
  {
    PerType(Texts(b.primary), Texts(b.secondary), Texts(b.tertiary), Texts(b.unknown))
  }

  /** Emitting one more block of type `t` adds its joined text to that entry only. */
  lemma RenderAppend(b: Blocks, t: SectionType, block: seq<string>)
    ensures Render(b.Set(t, b.Get(t) + [block])) == Render(b).Set(t, Render(b).Get(t) + [Join(block, "\n")])
  {
    TextsAppend(b.Get(t), block);
  }

  lemma RunPrefix(ks: seq<LineKind>, i: nat)
    requires i < |ks|
    ensures Run(ks[..i + 1]) == Step(Run(ks[..i]), ks[i])
  {
    assert ks[..i + 1][..i] == ks[..i];
  }

  /** The tests at the head of the loop in `segment` (lines 66-73 and 87): blank, header
      (with or without ':'), promoted line or other content. */
  method ClassifyLine(line: string) returns (k: LineKind)
    ensures k == Classify(line)
  {
    var stripped := Strip(line);
    if stripped == [] {
      return Blank;
    }
    var newType := DetectHeader(stripped);
    if newType.Some? {
      k := Header(newType.value, ':' in stripped, stripped);
    } else if IsPrimaryLine(stripped) {
      k := Promoted(stripped);
    } else {
      k := Content(stripped);
    }
  }

  /** The rest of the loop body (lines 73-91): what one classified line does to the
      returned dictionary, `current_type` and `current_buffer`. */
  method ScanLine(k: LineKind, ghost blocks: Blocks, segments: PerType<seq<string>>,
                  currentType: SectionType, currentBuffer: seq<string>)
    returns (segments': PerType<seq<string>>, currentType': SectionType, currentBuffer': seq<string>)
    requires segments == Render(blocks)
    ensures segments' == Render(Step(Scan(blocks, currentType, currentBuffer), k).blocks)
    ensures currentType' == Step(Scan(blocks, currentType, currentBuffer), k).current
    ensures currentBuffer' == Step(Scan(blocks, currentType, currentBuffer), k).buffer
  {
    segments', currentType', currentBuffer' := segments, currentType, currentBuffer;
    match k
    case Blank =>
    case Header(newType, kept, stripped) =>
      if currentBuffer' != [] {
        RenderAppend(blocks, currentType, currentBuffer);
        segments' := segments'.Set(currentType', segments'.Get(currentType') + [Join(currentBuffer', "\n")]);
        currentBuffer' := [];
      }
      currentType' := newType;
      if kept {
        currentBuffer' := currentBuffer' + [stripped];
      }
    case Promoted(stripped) =>
      RenderAppend(blocks, Primary, [stripped]);
      assert Join([stripped], "\n") == stripped;
      segments' := segments'.Set(Primary, segments'.primary + [stripped]);
    case Content(stripped) =>
      currentBuffer' := currentBuffer' + [stripped];
  }

  /** `segment`: the scan over the lines of `text`, one block per run of lines of a type. */
  method Segment(text: string) returns (segments: PerType<seq<string>>)
    ensures segments == Render(SegmentBlocks(text))
    ensures text == [] ==> segments == PerType([], [], [], [])
  {
    segments := PerType([], [], [], []);
    if text == [] {
      return;
    }
    var lines := SplitOn(text, '\n');
    ghost var ks := Kinds(lines);
    var currentType := Unknown;
    var currentBuffer: seq<string> := [];
    for i := 0 to |lines|
      invariant Run(ks[..i]) == Scan(Run(ks[..i]).blocks, currentType, currentBuffer)
      invariant segments == Render(Run(ks[..i]).blocks)
    {
      RunPrefix(ks, i);
      var k := ClassifyLine(lines[i]);
      segments, currentType, currentBuffer := ScanLine(k, Run(ks[..i]).blocks, segments, currentType, currentBuffer);
    }
    assert ks[..|lines|] == ks;
    if currentBuffer != [] {
      RenderAppend(Run(ks).blocks, currentType, currentBuffer);
      segments := segments.Set(currentType, segments.Get(currentType) + [Join(currentBuffer, "\n")]);
    }
  }

  // ---------------------------------------------------------------------------
  // Where each line goes, line by line

  /** The type in force after `ks`: that of the last header, else UNKNOWN. */
  function TypeAfter(ks: seq<LineKind>): SectionType
  {
    if ks == [] then Unknown
    else if ks[|ks| - 1].Header? then ks[|ks| - 1].section
    else TypeAfter(ks[..|ks| - 1])
  }

  /** Where one classified line goes when `current` is in force: nowhere when blank or a
      header without ':', the header's own type for a header with ':', PRIMARY for a
      promoted line, `current` for any other line. */
  function Dest(current: SectionType, k: LineKind): (r: seq<(SectionType, string)>)
    ensures |r| <= 1
  {
    match k
    case Blank => []
    case Header(h, kept, text) => if kept then [(h, text)] else []
    case Promoted(text) => [(Primary, text)]
    case Content(text) => [(current, text)]
  }

  /** Each kept line with its destination, in document order. */
  function Route(ks: seq<LineKind>): seq<(SectionType, string)>
  {
    if ks == [] then []
    else Route(ks[..|ks| - 1]) + Dest(TypeAfter(ks[..|ks| - 1]), ks[|ks| - 1])
  }

  /** The lines of a route bound for `t`, in order. */
  function Tagged(route: seq<(SectionType, string)>, t: SectionType): seq<string>
  {
    if route == [] then []
    else Tagged(route[..|route| - 1], t) + (if route[|route| - 1].0 == t then [route[|route| - 1].1] else [])
  }

  function Concat(bs: seq<seq<string>>): seq<string>
  {
    if bs == [] then [] else Concat(bs[..|bs| - 1]) + bs[|bs| - 1]
  }

  lemma TaggedAppend(a: seq<(SectionType, string)>, b: seq<(SectionType, string)>, t: SectionType)
    requires |b| <= 1
    ensures Tagged(a + b, t) == Tagged(a, t) + Tagged(b, t)
  {
    if b == [] {
      assert a + b == a;
    } else {
      assert (a + b)[..|a|] == a;
    }
  }

  lemma ConcatAppend(bs: seq<seq<string>>, b: seq<string>)
    ensures Concat(bs + [b]) == Concat(bs) + b
  {
    assert (bs + [b])[..|bs|] == bs;
  }

  /** The lines of type `t` held by a scan state: its blocks, then the pending buffer. */
  function Held(s: Scan, t: SectionType): seq<string>
  {
    Concat(s.blocks.Get(t)) + (if t == s.current then s.buffer else [])
  }

  predicate NoEmpty(bs: seq<seq<string>>)
  {
    forall k :: 0 <= k < |bs| ==> bs[k] != []
  }

  /** Emitted blocks are never empty. */
  predicate NoEmptyBlock(b: Blocks)
  {
    NoEmpty(b.primary) && NoEmpty(b.secondary) && NoEmpty(b.tertiary) && NoEmpty(b.unknown)
  }

  lemma NoEmptyGet(b: Blocks, t: SectionType)
    requires NoEmptyBlock(b)
    ensures NoEmpty(b.Get(t))
  {
  }

  lemma NoEmptySet(b: Blocks, t: SectionType, bs: seq<seq<string>>)
    requires NoEmptyBlock(b) && NoEmpty(bs)
    ensures NoEmptyBlock(b.Set(t, bs))
  {
  }

  lemma FlushNoEmpty(s: Scan)
    requires NoEmptyBlock(s.blocks)
    ensures NoEmptyBlock(Flush(s))
  {
    if s.buffer != [] {
      NoEmptyGet(s.blocks, s.current);
      NoEmptySet(s.blocks, s.current, s.blocks.Get(s.current) + [s.buffer]);
    }
  }

  /** The scan state agrees with the route: exactly the same lines in the same order for
      SECONDARY, TERTIARY and UNKNOWN, and the same lines for PRIMARY. */
  predicate Tracks(s: Scan, route: seq<(SectionType, string)>)
  {
    && Held(s, Secondary) == Tagged(route, Secondary)
    && Held(s, Tertiary) == Tagged(route, Tertiary)
    && Held(s, Unknown) == Tagged(route, Unknown)
    && multiset(Held(s, Primary)) == multiset(Tagged(route, Primary))
  }

  lemma FlushKeeps(s: Scan, t: SectionType)
    ensures Concat(Flush(s).Get(t)) == Held(s, t)
  {
    if s.buffer != [] && t == s.current {
      ConcatAppend(s.blocks.Get(t), s.buffer);
    }
  }

  /** A step appends the line it keeps to the lines held for its destination, except that
      a promoted line overtakes a pending PRIMARY buffer. */
  lemma StepHeld(s: Scan, k: LineKind, t: SectionType)
    requires !k.Promoted? || t != Primary
    ensures Held(Step(s, k), t) == Held(s, t) + Tagged(Dest(s.current, k), t)
  {
    match k
    case Blank =>
    case Header(h, kept, text) =>
      FlushKeeps(s, t);
    case Promoted(text) =>
    case Content(text) =>
  }

  lemma PromotedHeld(s: Scan, text: string)
    ensures multiset(Held(Step(s, Promoted(text)), Primary)) == multiset(Held(s, Primary)) + multiset{text}
    ensures Tagged(Dest(s.current, Promoted(text)), Primary) == [text]
  {
    ConcatAppend(s.blocks.primary, [text]);
  }

  lemma StepNoEmpty(s: Scan, k: LineKind)
    requires NoEmptyBlock(s.blocks)
    ensures NoEmptyBlock(Step(s, k).blocks)
  {
    match k
    case Blank =>
    case Header(h, kept, text) =>
      FlushNoEmpty(s);
    case Promoted(text) =>
      NoEmptySet(s.blocks, Primary, s.blocks.primary + [[text]]);
    case Content(text) =>
  }

  /** One step keeps the scan state in agreement with the route. */
  lemma StepTracks(s: Scan, route: seq<(SectionType, string)>, k: LineKind)
    requires Tracks(s, route)
    ensures Tracks(Step(s, k), route + Dest(s.current, k))
  {
    var d := Dest(s.current, k);
    TaggedAppend(route, d, Primary);
    TaggedAppend(route, d, Secondary);
    TaggedAppend(route, d, Tertiary);
    TaggedAppend(route, d, Unknown);
    StepHeld(s, k, Secondary);
    StepHeld(s, k, Tertiary);
    StepHeld(s, k, Unknown);
    if k.Promoted? {
      PromotedHeld(s, k.text);
    } else {
      StepHeld(s, k, Primary);
    }
  }

  lemma RunStep(ks: seq<LineKind>)
    requires ks != [] && Run(ks[..|ks| - 1]).current == TypeAfter(ks[..|ks| - 1])
    ensures Run(ks) == Step(Run(ks[..|ks| - 1]), ks[|ks| - 1])
    ensures Route(ks) == Route(ks[..|ks| - 1]) + Dest(Run(ks[..|ks| - 1]).current, ks[|ks| - 1])
    ensures TypeAfter(ks) == Step(Run(ks[..|ks| - 1]), ks[|ks| - 1]).current
  {
  }

  /** The buffered scan and the line-by-line route agree at every point. */
  lemma {:induction false} RunTracksRoute(ks: seq<LineKind>)
    ensures Run(ks).current == TypeAfter(ks)
    ensures Tracks(Run(ks), Route(ks))
    ensures NoEmptyBlock(Run(ks).blocks)
  {
    if ks != [] {
      var init := ks[..|ks| - 1];
      var k := ks[|ks| - 1];
      RunTracksRoute(init);
      RunStep(ks);
      StepTracks(Run(init), Route(init), k);
      StepNoEmpty(Run(init), k);
    }
  }

  /** Conservation: every kept line of the text is in exactly one emitted block, of the
      type its route names, with document order kept within every type but PRIMARY; no
      emitted block is empty. */
  lemma SegmentConserves(text: string)
    requires text != []
    ensures forall t :: t != Primary ==>
      Concat(SegmentBlocks(text).Get(t)) == Tagged(Route(Kinds(SplitOn(text, '\n'))), t)
    ensures multiset(Concat(SegmentBlocks(text).primary)) == multiset(Tagged(Route(Kinds(SplitOn(text, '\n'))), Primary))
    ensures NoEmptyBlock(SegmentBlocks(text))
  {
    var ks := Kinds(SplitOn(text, '\n'));
    RunTracksRoute(ks);
    FlushNoEmpty(Run(ks));
    FlushKeeps(Run(ks), Primary);
    FlushKeeps(Run(ks), Secondary);
    FlushKeeps(Run(ks), Tertiary);
    FlushKeeps(Run(ks), Unknown);
  }

  /** Lines before the first header go to UNKNOWN (or to PRIMARY when promoted). */
  lemma {:induction false} BeforeFirstHeader(ks: seq<LineKind>)
    requires forall j :: 0 <= j < |ks| ==> !ks[j].Header?
    ensures TypeAfter(ks) == Unknown
    ensures forall j :: 0 <= j < |Route(ks)| ==> Route(ks)[j].0 in {Unknown, Primary}
  {
    if ks != [] {
      var init := ks[..|ks| - 1];
      BeforeFirstHeader(init);
      assert Route(ks) == Route(init) + Dest(Unknown, ks[|ks| - 1]);
    }
  }

  /** On a header the pending buffer is flushed to the previous type; a header with ':'
      opens the new buffer, one without it leaves the buffer empty. */
  lemma HeaderFlushes(ks: seq<LineKind>, h: SectionType, kept: bool, text: string)
    ensures Run(ks + [Header(h, kept, text)]).blocks == Flush(Run(ks))
    ensures Run(ks + [Header(h, kept, text)]).current == h
    ensures Run(ks + [Header(h, kept, text)]).buffer == if kept then [text] else []
  {
    assert (ks + [Header(h, kept, text)])[..|ks|] == ks;
  }

  /** A promoted line is a PRIMARY block of its own, whatever section is in force, and
      leaves the current type and buffer alone. */
  lemma PromotedLineIsOwnBlock(ks: seq<LineKind>, text: string)
    ensures Run(ks + [Promoted(text)]).blocks.primary == Run(ks).blocks.primary + [[text]]
    ensures forall t :: t != Primary ==> Run(ks + [Promoted(text)]).blocks.Get(t) == Run(ks).blocks.Get(t)
    ensures Run(ks + [Promoted(text)]).current == Run(ks).current
    ensures Run(ks + [Promoted(text)]).buffer == Run(ks).buffer
  {
    assert (ks + [Promoted(text)])[..|ks|] == ks;
  }

  /** PRIMARY blocks are not in document order: a promoted line is emitted while the
      PRIMARY buffer before it is still pending. */
  lemma PrimaryBlocksOutOfOrder()
    ensures Flush(Run([Header(Primary, false, "skills"), Content("x"), Promoted("stack:y")])).primary
      == [["stack:y"], ["x"]]
  {
    var k0, k1, k2 := Header(Primary, false, "skills"), Content("x"), Promoted("stack:y");
    var ks := [k0, k1, k2];
    assert ks[..2] == [k0, k1] && [k0, k1][..1] == [k0] && [k0][..0] == [];
    assert Run([k0]) == Scan(NoBlocks, Primary, []);
    assert Run([k0, k1]) == Scan(NoBlocks, Primary, ["x"]);
    assert NoBlocks.primary + [["stack:y"]] == [["stack:y"]];
    assert Run(ks) == Scan(NoBlocks.Set(Primary, [["stack:y"]]), Primary, ["x"]);
    assert Flush(Run(ks)) == NoBlocks.Set(Primary, [["stack:y"]]).Set(Primary, [["stack:y"]] + [["x"]]);
  }

  /** The lines routed to PRIMARY, by contrast, are in document order. */
  lemma PrimaryLinesInOrder()
    ensures Tagged(Route([Header(Primary, false, "skills"), Content("x"), Promoted("stack:y")]), Primary)
      == ["x", "stack:y"]
  {
    var k0, k1, k2 := Header(Primary, false, "skills"), Content("x"), Promoted("stack:y");
    var ks := [k0, k1, k2];
    assert ks[..2] == [k0, k1] && [k0, k1][..1] == [k0] && [k0][..0] == [];
    assert Route([k0]) == [];
    assert TypeAfter([k0]) == Primary;
    assert Route([k0, k1]) == [(Primary, "x")];
    assert TypeAfter([k0, k1]) == Primary;
    var a, b := [(Primary, "x")], [(Primary, "stack:y")];
    assert Route(ks) == a + b;
    assert a[..0] == [] && b[..0] == [];
    TaggedAppend(a, b, Primary);
  }
}
