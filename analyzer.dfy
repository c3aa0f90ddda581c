/** `GapAnalyzer` (app/services/analyzer.py): where the required skills come from, how the
    resume and the requirements are cut into chunks, and the three-tier decision per
    requirement. The embedder and the vector search are not part of this model: `search`
    gives, for the resume chunks and one requirement, the best hit's score and text, or
    nothing. */
module Analyzer {
  import opened Text
  import opened Wrappers
  import opened Order
  import opened JobDatabase
  import opened RagVerifier

  /** `CLEAR_MATCH_THRESHOLD` and `CLEAR_MISS_THRESHOLD` (lines 15-16). */
  const ClearMatchThreshold: real := 0.7
  const ClearMissThreshold: real := 0.3

  /** The best search hit for one requirement: similarity score and matched resume text. */
  type Search = (seq<string>, string) -> Option<(real, string)>

  /** The reply the LLM gives a verification prompt for (skill, context, score). */
  type Ask = (string, string, real) -> Reply

  /** A verifier: the dictionary it returns for (skill, context, score). */
  type Verify = (string, string, real) -> map<string, Value>

  /** `rag_verifier.verify_skill` of a verifier whose generator has (or lacks) a client
      and whose LLM answers as `ask`. */
  function VerifierOf(hasClient: bool, ask: Ask): Verify
  {
    (skill: string, context: string, score: real) => Verification(hasClient, ask(skill, context, score), score)
  }

  datatype Tier = ClearMatch | ClearMiss | Borderline

  /** The decision of lines 142-165: a clear match from 0.7 up, a clear miss up to and
      including 0.3, borderline strictly between. */
  function TierOf(score: real): (t: Tier)
    ensures t == ClearMatch <==> score >= 0.7
    ensures t == ClearMiss <==> score <= 0.3
    ensures t == Borderline <==> 0.3 < score < 0.7
  {
    if score >= ClearMatchThreshold then ClearMatch
    else if score <= ClearMissThreshold then ClearMiss
    else Borderline
  }

  /** `verification_method`. */
  datatype Method = Threshold | Rag

  /** One entry of `covered_skills` or `missing_skills`; `matched` is absent on the missing
      side. Confidence and reasoning are not part of this model. */
  datatype SkillResult = SkillResult(skill: string, score: real, matched: Option<Value>, via: Method)

  /** The three lists the first loop builds (lines 102-165). */
  datatype Pass = Pass(covered: seq<SkillResult>, missing: seq<SkillResult>,
                       borderline: seq<(string, string, real)>)

  datatype Stats = Stats(total: nat, clearMatches: nat, clearMisses: nat, aiVerified: nat,
                         fastPathPercentage: real)

  /** What `analyze` returns, with the roadmap replaced by the names the generator is
      asked about. */
  datatype Analysis = Analysis(matchPercentage: real, missing: seq<SkillResult>, covered: seq<SkillResult>,
                               roadmapInput: seq<string>, stats: Stats)

  // ---------------------------------------------------------------------------
  // Chunking

  /** `resume_chunks` (line 81): the stripped lines that are not blank. */
  function ResumeChunks(text: string): seq<string>
  {
    NonBlankStripped(SplitOn(text, '\n'))
  }

  /** The lines longer than ten characters, in order. */
  function LongLines(lines: seq<string>): seq<string>
  {
    if lines == [] then [] else
      LongLines(lines[..|lines| - 1])
      + (if |lines[|lines| - 1]| > 10 then [lines[|lines| - 1]] else [])
  }

  /** A line is kept exactly when it is one of the lines and longer than ten characters. */
  lemma {:induction false} LongLinesMembers(lines: seq<string>)
    ensures forall x :: x in LongLines(lines) <==> x in lines && |x| > 10
  {
    if lines != [] {
      var pre := lines[..|lines| - 1];
      LongLinesMembers(pre);
      assert lines == pre + [lines[|lines| - 1]];
    }
  }

  /** The long lines come in input order, duplicates included: the result for a
      concatenation is the concatenation of the results, and one line is kept iff it is
      longer than ten characters. */
  lemma {:induction false} LongLinesAppend(a: seq<string>, b: seq<string>)
    ensures LongLines(a + b) == LongLines(a) + LongLines(b)
    ensures |b| == 1 ==> LongLines(b) == if |b[0]| > 10 then [b[0]] else []
  {
    if b == [] {
      assert a + b == a;
    } else {
      var b0, t := b[..|b| - 1], b[|b| - 1];
      assert a + b == (a + b0) + [t] && b == b0 + [t];
      LongLinesSnoc(a + b0, t);
      LongLinesSnoc(b0, t);
      LongLinesAppend(a, b0);
      var tail := if |t| > 10 then [t] else [];
      assert (LongLines(a) + LongLines(b0)) + tail == LongLines(a) + (LongLines(b0) + tail);
      assert b0 == [] ==> LongLines(b0) + tail == tail;
    }
  }

  lemma LongLinesSnoc(s: seq<string>, x: string)
    ensures LongLines(s + [x]) == LongLines(s) + if |x| > 10 then [x] else []
  {
    assert (s + [x])[..|s|] == s;
  }

  /** `jd_chunks` (lines 84-88): the skills list when it is not empty, else the long lines
      of the job description, else nothing. */
  function JdChunks(skillsList: Option<seq<string>>, jobDescription: Option<string>): seq<string>
  {
    if skillsList.Some? && skillsList.value != [] then skillsList.value
    else if jobDescription.Some? && jobDescription.value != [] then LongLines(SplitOn(jobDescription.value, '\n'))
    else []
  }

  /** Each resume chunk is a line of the text with its surrounding space removed, and
      every line that is not blank gives one. */
  lemma ResumeChunksAreLines(text: string)
    ensures forall x :: x in ResumeChunks(text) ==> x != [] && NoEdgeSpace(x) && '\n' !in x
    ensures forall line :: line in SplitOn(text, '\n') && Strip(line) != [] ==> Strip(line) in ResumeChunks(text)
  {
    NonBlankStrippedPieces(text, '\n');
    forall line | line in SplitOn(text, '\n') && Strip(line) != []
      ensures Strip(line) in ResumeChunks(text)
    {
      NonBlankStrippedKeeps(SplitOn(text, '\n'), line);
    }
  }

  /** Without a skills list the requirements are exactly the job-description lines longer
      than ten characters; with neither there are none. */
  lemma JdChunksFromDescription(skillsList: Option<seq<string>>, jobDescription: Option<string>)
    requires skillsList.None? || skillsList.value == []
    ensures jobDescription.Some? ==> forall x :: x in JdChunks(skillsList, jobDescription) <==>
      x in SplitOn(jobDescription.value, '\n') && |x| > 10
    ensures jobDescription.None? ==> JdChunks(skillsList, jobDescription) == []
    ensures jobDescription.Some? ==> JdChunks(skillsList, jobDescription) == LongLines(SplitOn(jobDescription.value, '\n'))
  {
    if jobDescription.Some? {
      LongLinesMembers(SplitOn(jobDescription.value, '\n'));
    }
    if jobDescription.Some? && jobDescription.value == [] {
      assert SplitOn([], '\n') == [[]];
    }
  }

  // ---------------------------------------------------------------------------
  // The two loops of `analyze`

  /** `best_score` and `context` (lines 139-140): a missing hit scores 0 with no text. */
  function HitOf(found: Option<(real, string)>): (real, string)
  {
    if found.Some? then found.value else (0.0, "")
  }

  /** The first loop (lines 137-165) over a prefix of the requirements. */
  function FirstPass(jd: seq<string>, resume: seq<string>, search: Search): (p: Pass)
    ensures |p.covered| + |p.missing| + |p.borderline| == |jd|
  {
    if jd == [] then Pass([], [], []) else
      var p := FirstPass(jd[..|jd| - 1], resume, search);
      var text := jd[|jd| - 1];
      var hit := HitOf(search(resume, text));
      match TierOf(hit.0)
      case ClearMatch => p.(covered := p.covered + [SkillResult(text, hit.0, Some(JStr(hit.1)), Threshold)])
      case ClearMiss => p.(missing := p.missing + [SkillResult(text, hit.0, None, Threshold)])
      case Borderline => p.(borderline := p.borderline + [(text, hit.1, hit.0)])
  }

  /** The three lists follow requirement order, duplicates included: the pass over a
      concatenation is the two passes' lists concatenated, and one requirement goes, with
      its search hit, to the list its tier names. */
  lemma {:induction false} FirstPassAppend(a: seq<string>, b: seq<string>, resume: seq<string>, search: Search)
    ensures var pa, pb := FirstPass(a, resume, search), FirstPass(b, resume, search);
      FirstPass(a + b, resume, search) ==
        Pass(pa.covered + pb.covered, pa.missing + pb.missing, pa.borderline + pb.borderline)
    ensures |b| == 1 ==>
      var text := b[0];
      var hit := HitOf(search(resume, text));
      FirstPass(b, resume, search) ==
        match TierOf(hit.0)
        case ClearMatch => Pass([SkillResult(text, hit.0, Some(JStr(hit.1)), Threshold)], [], [])
        case ClearMiss => Pass([], [SkillResult(text, hit.0, None, Threshold)], [])
        case Borderline => Pass([], [], [(text, hit.1, hit.0)])
  {
    if b == [] {
      assert a + b == a;
    } else {
      assert (a + b)[..|a + b| - 1] == a + b[..|b| - 1];
      assert (a + b)[|a + b| - 1] == b[|b| - 1];
      FirstPassAppend(a, b[..|b| - 1], resume, search);
    }
    if |b| == 1 {
      assert b[..0] == [];
      assert FirstPass(b[..0], resume, search) == Pass([], [], []);
    }
  }

  /** Python truthiness of a reply value. */
  predicate Truthy(v: Value)
  {
    match v
    case JStr(s) => s != []
    case JNum(n) => n != 0.0
    case JBool(b) => b
    case JNull => false
    case JCompound(nonEmpty) => nonEmpty
    case ThresholdNote(_) => true
  }

  /** `verification.get("evidence") or context` (line 183). */
  function RagMatch(v: map<string, Value>, context: string): Value
  {
    if "evidence" in v && Truthy(v["evidence"]) then v["evidence"] else JStr(context)
  }

  /** `verification["decision"] == "COVERED"` (line 182). */
  predicate Covers(v: map<string, Value>)
  {
    "decision" in v && v["decision"] == JStr("COVERED")
  }

  /** The entry the second loop (lines 171-186) makes for one borderline case. */
  function RagEntry(verify: Verify, c: (string, string, real)): SkillResult
  {
    var v := verify(c.0, c.1, c.2);
    if Covers(v) then SkillResult(c.0, c.2, Some(RagMatch(v, c.1)), Rag)
    else SkillResult(c.0, c.2, None, Rag)
  }

  /** The entries the second loop adds to the covered and the missing list. */
  function SecondPass(cases: seq<(string, string, real)>, verify: Verify): (p: (seq<SkillResult>, seq<SkillResult>))
    ensures |p.0| + |p.1| == |cases|
  {
    if cases == [] then ([], []) else
      var p := SecondPass(cases[..|cases| - 1], verify);
      var c := cases[|cases| - 1];
      if Covers(verify(c.0, c.1, c.2)) then (p.0 + [RagEntry(verify, c)], p.1)
      else (p.0, p.1 + [RagEntry(verify, c)])
  }

  /** Both lists follow the order of the borderline cases, duplicates included: the pass
      over a concatenation is the two passes' lists concatenated, and one case goes to the
      covered list exactly when the verifier says COVERED. */
  lemma {:induction false} SecondPassAppend(a: seq<(string, string, real)>, b: seq<(string, string, real)>, verify: Verify)
    ensures var pa, pb := SecondPass(a, verify), SecondPass(b, verify);
      SecondPass(a + b, verify) == (pa.0 + pb.0, pa.1 + pb.1)
    ensures |b| == 1 ==>
      var c := b[0];
      SecondPass(b, verify) == if Covers(verify(c.0, c.1, c.2)) then ([RagEntry(verify, c)], []) else ([], [RagEntry(verify, c)])
  {
    if b == [] {
      assert a + b == a;
      var pa := SecondPass(a, verify);
      assert pa.0 + [] == pa.0 && pa.1 + [] == pa.1;
    } else {
      var b0, c := b[..|b| - 1], b[|b| - 1];
      assert (a + b)[..|a + b| - 1] == a + b0;
      assert (a + b)[|a + b| - 1] == c;
      SecondPassAppend(a, b0, verify);
      var pa, pb := SecondPass(a, verify), SecondPass(b0, verify);
      var e := RagEntry(verify, c);
      if Covers(verify(c.0, c.1, c.2)) {
        assert SecondPass(b, verify) == (pb.0 + [e], pb.1);
        assert SecondPass(a + b, verify) == ((pa.0 + pb.0) + [e], pa.1 + pb.1);
        assert (pa.0 + pb.0) + [e] == pa.0 + (pb.0 + [e]);
        assert b0 == [] ==> pb.0 + [e] == [e];
      } else {
        assert SecondPass(b, verify) == (pb.0, pb.1 + [e]);
        assert SecondPass(a + b, verify) == (pa.0 + pb.0, (pa.1 + pb.1) + [e]);
        assert (pa.1 + pb.1) + [e] == pa.1 + (pb.1 + [e]);
        assert b0 == [] ==> pb.1 + [e] == [e];
      }
    }
  }

  // ---------------------------------------------------------------------------
  // Statistics

  function Names(rs: seq<SkillResult>): (r: seq<string>)
    ensures |r| == |rs| && forall i :: 0 <= i < |rs| ==> r[i] == rs[i].skill
  {
    if rs == [] then [] else Names(rs[..|rs| - 1]) + [rs[|rs| - 1].skill]
  }

  function CaseSkills(cs: seq<(string, string, real)>): (r: seq<string>)
    ensures |r| == |cs| && forall i :: 0 <= i < |cs| ==> r[i] == cs[i].0
  {
    if cs == [] then [] else CaseSkills(cs[..|cs| - 1]) + [cs[|cs| - 1].0]
  }

  /** `sum(1 for s in rs if s.get("verification_method") == "threshold")`. */
  function CountThreshold(rs: seq<SkillResult>): (n: nat)
    ensures n <= |rs|
  {
    if rs == [] then 0 else CountThreshold(rs[..|rs| - 1]) + (if rs[|rs| - 1].via == Threshold then 1 else 0)
  }

  /** `part / total * 100`, or 0 for no requirements; the rounding to one decimal is not
      modelled. */
  function Percent(part: nat, total: nat): real
  {
    if total > 0 then (part as real) / (total as real) * 100.0 else 0.0
  }

  lemma PercentBounds(part: nat, total: nat)
    requires part <= total
    ensures 0.0 <= Percent(part, total) <= 100.0
    ensures total == 0 ==> Percent(part, total) == 0.0
    ensures 0 < part == total ==> Percent(part, total) == 100.0
  {
    if total > 0 {
      assert (part as real) / (total as real) <= 1.0;
    }
  }

  /** `missing_skills[:5]`, by name. */
  function RoadmapInput(missing: seq<SkillResult>): seq<string>
  {
    FirstFive(Names(missing))
  }

  /** `s[:5]`. */
  function FirstFive<T>(s: seq<T>): seq<T>
  {
    s[..if |s| < 5 then |s| else 5]
  }

  /** The result of `analyze` for the given resume text and requirements. */
  function AnalysisOf(verify: Verify, resumeText: string, jobDescription: Option<string>,
                      skillsList: Option<seq<string>>, search: Search): Analysis
  {
    var jd := JdChunks(skillsList, jobDescription);
    var first := FirstPass(jd, ResumeChunks(resumeText), search);
    var second := SecondPass(first.borderline, verify);
    Report(|jd|, |first.borderline|, first.covered + second.0, first.missing + second.1)
  }

  /** The returned dictionary and its `verification_stats` (lines 190-212). */
  function Report(total: nat, borderline: nat, covered: seq<SkillResult>, missing: seq<SkillResult>): Analysis
    requires borderline <= total
  {
    Analysis(Percent(|covered|, total), missing, covered, RoadmapInput(missing),
             Stats(total, CountThreshold(covered), CountThreshold(missing), borderline,
                   Percent(total - borderline, total)))
  }

  // ---------------------------------------------------------------------------
  // Properties

  /** Every requirement lands in exactly one of the three first-pass lists. */
  lemma {:induction false} FirstPassPartition(jd: seq<string>, resume: seq<string>, search: Search)
    ensures var p := FirstPass(jd, resume, search);
      multiset(Names(p.covered)) + multiset(Names(p.missing)) + multiset(CaseSkills(p.borderline)) == multiset(jd)
  {
    if jd != [] {
      FirstPassPartition(jd[..|jd| - 1], resume, search);
      FirstPassStep(jd, resume, search);
      SnocSplit(jd);
    }
  }

  /** One step of the first loop adds the requirement to exactly one list. */
  lemma FirstPassStep(jd: seq<string>, resume: seq<string>, search: Search)
    requires jd != []
    ensures var p, q := FirstPass(jd[..|jd| - 1], resume, search), FirstPass(jd, resume, search);
      multiset(Names(q.covered)) + multiset(Names(q.missing)) + multiset(CaseSkills(q.borderline))
      == multiset(Names(p.covered)) + multiset(Names(p.missing)) + multiset(CaseSkills(p.borderline))
         + multiset{jd[|jd| - 1]}
  {
    var p, text := FirstPass(jd[..|jd| - 1], resume, search), jd[|jd| - 1];
    var q := FirstPass(jd, resume, search);
    var hit := HitOf(search(resume, text));
    var a, b, c := multiset(Names(p.covered)), multiset(Names(p.missing)), multiset(CaseSkills(p.borderline));
    var t := TierOf(hit.0);
    if t == ClearMatch {
      var e := SkillResult(text, hit.0, Some(JStr(hit.1)), Threshold);
      assert q == Pass(p.covered + [e], p.missing, p.borderline);
      assert multiset(Names(q.covered)) == a + multiset{text} by {
        NamesSnoc(p.covered, e);
      }
      AddToOne(a, b, c, text);
    } else if t == ClearMiss {
      var e := SkillResult(text, hit.0, None, Threshold);
      assert q == Pass(p.covered, p.missing + [e], p.borderline);
      assert multiset(Names(q.missing)) == b + multiset{text} by {
        NamesSnoc(p.missing, e);
      }
      AddToOne(b, a, c, text);
    } else {
      assert q == Pass(p.covered, p.missing, p.borderline + [(text, hit.1, hit.0)]);
      assert multiset(CaseSkills(q.borderline)) == c + multiset{text} by {
        CaseSkillsSnoc(p.borderline, (text, hit.1, hit.0));
      }
      AddToOne(c, a, b, text);
    }
  }

  /** Adding an element to one of three bags adds it to their sum. */
  lemma AddToOne(a: multiset<string>, b: multiset<string>, c: multiset<string>, x: string)
    ensures (a + multiset{x}) + b + c == a + b + c + multiset{x}
    ensures b + (a + multiset{x}) + c == b + a + c + multiset{x}
    ensures b + c + (a + multiset{x}) == b + c + a + multiset{x}
  {
  }

  lemma SnocSplit<T>(s: seq<T>)
    requires s != []
    ensures s == s[..|s| - 1] + [s[|s| - 1]]
  {
  }

  lemma NamesSnoc(rs: seq<SkillResult>, e: SkillResult)
    ensures Names(rs + [e]) == Names(rs) + [e.skill]
  {
    assert (rs + [e])[..|rs|] == rs;
  }

  lemma CaseSkillsSnoc(cs: seq<(string, string, real)>, c: (string, string, real))
    ensures CaseSkills(cs + [c]) == CaseSkills(cs) + [c.0]
  {
    assert (cs + [c])[..|cs|] == cs;
  }

  lemma NamesAppend(a: seq<SkillResult>, b: seq<SkillResult>)
    ensures Names(a + b) == Names(a) + Names(b)
  {
  }

  /** The first pass sorts by tier: threshold cover from 0.7, threshold miss up to 0.3,
      borderline strictly between; every covered entry carries the matched text. */
  lemma {:induction false} FirstPassTiers(jd: seq<string>, resume: seq<string>, search: Search)
    ensures var p := FirstPass(jd, resume, search);
      && (forall e :: e in p.covered ==> e.score >= 0.7 && e.via == Threshold && e.matched.Some?)
      && (forall e :: e in p.missing ==> e.score <= 0.3 && e.via == Threshold && e.matched.None?)
      && (forall c :: c in p.borderline ==> 0.3 < c.2 < 0.7)
  {
    if jd != [] {
      FirstPassTiers(jd[..|jd| - 1], resume, search);
    }
  }

  /** A requirement the search finds nothing for is a clear miss with score 0. */
  lemma {:induction false} NoHitIsClearMiss(jd: seq<string>, resume: seq<string>, search: Search, i: nat)
    requires i < |jd| && search(resume, jd[i]).None?
    ensures SkillResult(jd[i], 0.0, None, Threshold) in FirstPass(jd, resume, search).missing
  {
    if i < |jd| - 1 {
      NoHitIsClearMiss(jd[..|jd| - 1], resume, search, i);
    }
  }

  /** Every borderline case lands in exactly one of the verifier's lists, on the covered
      side exactly when the verifier said COVERED, and tagged "rag" either way. */
  lemma {:induction false} SecondPassPartition(cases: seq<(string, string, real)>, verify: Verify)
    ensures var p := SecondPass(cases, verify);
      multiset(Names(p.0)) + multiset(Names(p.1)) == multiset(CaseSkills(cases))
  {
    if cases != [] {
      var pre, c := cases[..|cases| - 1], cases[|cases| - 1];
      SecondPassPartition(pre, verify);
      var p := SecondPass(pre, verify);
      assert CaseSkills(cases) == CaseSkills(pre) + [c.0] by {
        SnocSplit(cases);
        CaseSkillsSnoc(pre, c);
      }
      if Covers(verify(c.0, c.1, c.2)) {
        NamesSnoc(p.0, RagEntry(verify, c));
      } else {
        NamesSnoc(p.1, RagEntry(verify, c));
      }
    }
  }

  lemma {:induction false} SecondPassDecisions(cases: seq<(string, string, real)>, verify: Verify)
    ensures var p := SecondPass(cases, verify);
      && (forall e :: e in p.0 ==>
            (e.via == Rag && e.matched.Some?
             && exists c :: c in cases && c.0 == e.skill && c.2 == e.score && Covers(verify(c.0, c.1, c.2))))
      && (forall e :: e in p.1 ==>
            (e.via == Rag && e.matched.None?
             && exists c :: c in cases && c.0 == e.skill && c.2 == e.score && !Covers(verify(c.0, c.1, c.2))))
  {
    if cases != [] {
      SecondPassDecisions(cases[..|cases| - 1], verify);
    }
  }

  /** Without an LLM client the verifier covers a borderline case exactly when its score
      reaches 0.5. */
  lemma WithoutClientCoveredFromHalf(ask: Ask, skill: string, context: string, score: real)
    ensures Covers(VerifierOf(false, ask)(skill, context, score)) <==> score >= 0.5
  {
    var v := VerifierOf(false, ask)(skill, context, score);
    assert v == Verification(false, ask(skill, context, score), score);
    assert v["decision"] == JStr(FallbackDecision(score));
  }

  lemma {:induction false} CountThresholdAll(rs: seq<SkillResult>)
    requires forall e :: e in rs ==> e.via == Threshold
    ensures CountThreshold(rs) == |rs|
  {
    if rs != [] {
      CountThresholdAll(rs[..|rs| - 1]);
    }
  }

  lemma {:induction false} CountThresholdNone(rs: seq<SkillResult>)
    requires forall e :: e in rs ==> e.via == Rag
    ensures CountThreshold(rs) == 0
  {
    if rs != [] {
      CountThresholdNone(rs[..|rs| - 1]);
    }
  }

  lemma CountThresholdAppend(a: seq<SkillResult>, b: seq<SkillResult>)
    ensures CountThreshold(a + b) == CountThreshold(a) + CountThreshold(b)
  {
    if b == [] {
      assert a + b == a;
    } else {
      assert (a + b)[..|a + b| - 1] == a + b[..|b| - 1];
      assert (a + b)[|a + b| - 1] == b[|b| - 1];
      assert (a + b)[|a + b| - 1] == b[|b| - 1];
      CountThresholdAppend(a, b[..|b| - 1]);
    }
  }

  /** Every requirement, duplicates included, is reported exactly once, covered or
      missing. */
  lemma AnalysisPartition(verify: Verify, resumeText: string, jobDescription: Option<string>,
                          skillsList: Option<seq<string>>, search: Search)
    ensures var r := AnalysisOf(verify, resumeText, jobDescription, skillsList, search);
      multiset(Names(r.covered)) + multiset(Names(r.missing)) == multiset(JdChunks(skillsList, jobDescription))
      && |r.covered| + |r.missing| == r.stats.total
  {
    var jd := JdChunks(skillsList, jobDescription);
    var first := FirstPass(jd, ResumeChunks(resumeText), search);
    var second := SecondPass(first.borderline, verify);
    FirstPassPartition(jd, ResumeChunks(resumeText), search);
    SecondPassPartition(first.borderline, verify);
    NamesAppend(first.covered, second.0);
    NamesAppend(first.missing, second.1);
    Merge(multiset(Names(first.covered)), multiset(Names(first.missing)), multiset(CaseSkills(first.borderline)),
          multiset(Names(second.0)), multiset(Names(second.1)), multiset(jd));
  }

  lemma Merge(covered: multiset<string>, missing: multiset<string>, borderline: multiset<string>,
              verified: multiset<string>, rejected: multiset<string>, all: multiset<string>)
    requires covered + missing + borderline == all
    requires verified + rejected == borderline
    ensures (covered + verified) + (missing + rejected) == all
  {
  }

  /** `clear_matches + clear_misses + ai_verified == total_skills`, where the first two
      count the threshold entries and the last the borderline cases. */
  lemma StatsAddUp(verify: Verify, resumeText: string, jobDescription: Option<string>,
                   skillsList: Option<seq<string>>, search: Search)
    ensures var s := AnalysisOf(verify, resumeText, jobDescription, skillsList, search).stats;
      var first := FirstPass(JdChunks(skillsList, jobDescription), ResumeChunks(resumeText), search);
      && s.clearMatches == |first.covered| && s.clearMisses == |first.missing|
      && s.clearMatches + s.clearMisses + s.aiVerified == s.total
  {
    var jd := JdChunks(skillsList, jobDescription);
    var first := FirstPass(jd, ResumeChunks(resumeText), search);
    var second := SecondPass(first.borderline, verify);
    FirstPassPartition(jd, ResumeChunks(resumeText), search);
    FirstPassTiers(jd, ResumeChunks(resumeText), search);
    SecondPassDecisions(first.borderline, verify);
    CountThresholdAppend(first.covered, second.0);
    CountThresholdAppend(first.missing, second.1);
    CountThresholdAll(first.covered);
    CountThresholdAll(first.missing);
    CountThresholdNone(second.0);
    CountThresholdNone(second.1);
  }

  /** Both percentages lie in [0, 100] and are 0 when there are no requirements. */
  lemma PercentagesBounded(verify: Verify, resumeText: string, jobDescription: Option<string>,
                           skillsList: Option<seq<string>>, search: Search)
    ensures var r := AnalysisOf(verify, resumeText, jobDescription, skillsList, search);
      && 0.0 <= r.matchPercentage <= 100.0 && 0.0 <= r.stats.fastPathPercentage <= 100.0
      && (r.stats.total == 0 ==> r.matchPercentage == 0.0 && r.stats.fastPathPercentage == 0.0)
  {
    var jd := JdChunks(skillsList, jobDescription);
    var first := FirstPass(jd, ResumeChunks(resumeText), search);
    var second := SecondPass(first.borderline, verify);
    PercentBounds(|first.covered + second.0|, |jd|);
    PercentBounds(|jd| - |first.borderline|, |jd|);
  }

  /** `s[:5]` is the prefix of at most five elements, all of `s` when it is that short:
      the roadmap is asked about the first five missing requirements. */
  lemma FirstFiveIsHead<T>(s: seq<T>)
    ensures |FirstFive(s)| <= 5
    ensures FirstFive(s) <= s
    ensures |s| <= 5 ==> FirstFive(s) == s
  {
    assert s[..|s|] == s;
  }

  // ---------------------------------------------------------------------------
  // The service object

  class GapAnalyzer {
    const jobDb: JobDatabaseService
    /** Whether the generator behind the verifier has an LLM client. */
    const hasClient: bool

    /** `GapAnalyzer()` with its services; the embedder and the vector store are not part
        of this model. */
    constructor (jobDb: JobDatabaseService, hasClient: bool)
      ensures this.jobDb == jobDb && this.hasClient == hasClient
    {
      this.jobDb := jobDb;
      this.hasClient := hasClient;
    }

    /** `get_required_skills` (lines 32-61): at most 30 skills from the database when it
        has at least 10 for the role and level, otherwise the generator's list.
        `generate` stands for `generate_skills_list` and `json` for `json.loads`. */
    method GetRequiredSkills(role: string, experienceLevel: string, json: string -> Option<seq<string>>,
                             generate: (string, string) -> seq<string>)
      returns (skills: seq<string>)
      ensures var s := jobDb.RoleSkills(role, Some(experienceLevel), json);
        if jobDb.IsAvailable() && |s| >= 10 then
          && |skills| == (if |s| < 30 then |s| else 30) && Distinct(skills)
          && forall y :: y in skills ==> y in s
        else skills == generate(role, experienceLevel)
    {
      if jobDb.IsAvailable() {
        var dbSkills := jobDb.GetSkillsForRole(role, Some(experienceLevel), json);
        if dbSkills != [] && |dbSkills| >= 10 {
          skills := dbSkills[..if |dbSkills| < 30 then |dbSkills| else 30];
          return;
        }
      }
      skills := generate(role, experienceLevel);
    }

    /** `analyze` on a resume already turned into text (lines 64-212). */
    method Analyze(resumeText: string, jobDescription: Option<string>, skillsList: Option<seq<string>>,
                   search: Search, ask: Ask)
      returns (result: Analysis)
      ensures result == AnalysisOf(VerifierOf(hasClient, ask), resumeText, jobDescription, skillsList, search)
    {
      var resumeChunks := ResumeChunks(resumeText);
      var jdChunks := JdChunks(skillsList, jobDescription);
      var first := Classify(jdChunks, resumeChunks, search);
      ghost var second := SecondPass(first.borderline, VerifierOf(hasClient, ask));
      var covered, missing := first.covered, first.missing;
      if first.borderline != [] {
        covered, missing := VerifyBorderline(hasClient, ask, first.borderline, covered, missing);
      } else {
        assert second == ([], []);
      }
      assert covered == first.covered + second.0 && missing == first.missing + second.1;
      result := Report(|jdChunks|, |first.borderline|, covered, missing);
    }
  }

  /** The first loop of `analyze`. */
  method Classify(jd: seq<string>, resume: seq<string>, search: Search) returns (p: Pass)
    ensures p == FirstPass(jd, resume, search)
  {
    var covered, missing, borderline := [], [], [];
    for i := 0 to |jd|
      invariant Pass(covered, missing, borderline) == FirstPass(jd[..i], resume, search)
    {
      assert jd[..i + 1][..i] == jd[..i];
      var results := search(resume, jd[i]);
      var bestScore := if results.Some? then results.value.0 else 0.0;
      var context := if results.Some? then results.value.1 else "";
      if bestScore >= ClearMatchThreshold {
        covered := covered + [SkillResult(jd[i], bestScore, Some(JStr(context)), Threshold)];
      } else if bestScore <= ClearMissThreshold {
        missing := missing + [SkillResult(jd[i], bestScore, None, Threshold)];
      } else {
        borderline := borderline + [(jd[i], context, bestScore)];
      }
    }
    assert jd[..|jd|] == jd;
    p := Pass(covered, missing, borderline);
  }

  lemma SecondPassSnoc(cases: seq<(string, string, real)>, i: nat, verify: Verify)
    requires i < |cases|
    ensures var p := SecondPass(cases[..i], verify);
      SecondPass(cases[..i + 1], verify)
        == if Covers(verify(cases[i].0, cases[i].1, cases[i].2)) then (p.0 + [RagEntry(verify, cases[i])], p.1)
           else (p.0, p.1 + [RagEntry(verify, cases[i])])
  {
    assert cases[..i + 1][..i] == cases[..i];
  }

  /** The second loop of `analyze`, appending to the lists the first one built. */
  method VerifyBorderline(hasClient: bool, ask: Ask, cases: seq<(string, string, real)>,
                          covered0: seq<SkillResult>, missing0: seq<SkillResult>)
    returns (covered: seq<SkillResult>, missing: seq<SkillResult>)
    ensures covered == covered0 + SecondPass(cases, VerifierOf(hasClient, ask)).0
    ensures missing == missing0 + SecondPass(cases, VerifierOf(hasClient, ask)).1
  {
    var verify := VerifierOf(hasClient, ask);
    covered, missing := covered0, missing0;
    for i := 0 to |cases|
      invariant covered == covered0 + SecondPass(cases[..i], verify).0
      invariant missing == missing0 + SecondPass(cases[..i], verify).1
    {
      SecondPassSnoc(cases, i, verify);
      var isCovered, entry := VerifyCase(hasClient, ask, cases[i]);
      if isCovered {
        covered := covered + [entry];
      } else {
        missing := missing + [entry];
      }
    }
    assert cases[..|cases|] == cases;
  }

  /** The body of that loop for one borderline case. */
  method VerifyCase(hasClient: bool, ask: Ask, c: (string, string, real))
    returns (isCovered: bool, entry: SkillResult)
    ensures isCovered == Covers(VerifierOf(hasClient, ask)(c.0, c.1, c.2))
    ensures entry == RagEntry(VerifierOf(hasClient, ask), c)
  {
    var (skill, context, score) := c;
    var verification := VerifySkill(hasClient, ask, skill, context, score);
    assert verification == VerifierOf(hasClient, ask)(skill, context, score);
    isCovered := verification["decision"] == JStr("COVERED");
    if isCovered {
      var evidence := if "evidence" in verification then verification["evidence"] else JNull;
      var m := if Truthy(evidence) then evidence else JStr(context);
      entry := SkillResult(skill, score, Some(m), Rag);
    } else {
      entry := SkillResult(skill, score, None, Rag);
    }
  }
}
