/** Matching and scoring in the skill extractor (app/services/skill_extractor.py, `_match`,
    `_process_text_block` and the tally and acceptance rule of `extract`).

    Scores are the source's scores times ten, which makes every one an integer: a match
    is worth 1.0 (EXACT) or 0.8 (FUZZY), times 2.0 in a PRIMARY block, 1.0 in a SECONDARY
    block and 0.5 elsewhere, so the products are 20, 16, 10, 8, 5 and 4. */
module Scoring {
  import opened Text
  import opened Wrappers
  import opened SkillTables
  import opened Taxonomy
  import opened Segmenter
  import opened Candidates

  // ---------------------------------------------------------------------------
  // _match

  datatype MatchType = Exact | Fuzzy

  datatype MatchResult = NoMatch | Matched(kind: MatchType, name: string)

  /** `_match`, against the tables `lex`. `fuzzy` is the rapidfuzz lookup over the
      taxonomy's skills (ratio at least 90), which is not part of this model: it gives
      the best skill or nothing. */
  function Match(tax: SkillTaxonomy, lex: Lexicon, fuzzy: string -> Option<string>, candidate: string): MatchResult
    reads tax
  {
    if Lower(candidate) in lex.denylist then NoMatch
    else if ExactName(tax, lex, candidate).Some? then Matched(Exact, ExactName(tax, lex, candidate).value)
    else if |candidate| < 4 then NoMatch
    else if fuzzy(candidate).Some? then Matched(Fuzzy, fuzzy(candidate).value)
    else NoMatch
  }

  /** What rapidfuzz's `extractOne` over `list(self.taxonomy.skills)` promises: whatever it
      returns is one of the taxonomy's skills. */
  ghost predicate FuzzyFromSkills(tax: SkillTaxonomy, fuzzy: string -> Option<string>)
    reads tax
  {
    forall c :: fuzzy(c).Some? ==> fuzzy(c).value in tax.Skills()
  }

  /** The two exact tests of `_match`: the canonical table, then the taxonomy (whose
      answer counts only when it is not empty). */
  function ExactName(tax: SkillTaxonomy, lex: Lexicon, candidate: string): Option<string>
    reads tax
  {
    if Lower(candidate) in lex.canonicalSkills then Some(lex.canonicalSkills[Lower(candidate)])
    else if tax.Normalize(candidate).Some? && tax.Normalize(candidate).value != "" then tax.Normalize(candidate)
    else None
  }

  /** The order of the tests in `_match`: a denylisted candidate never matches, the
      canonical table wins over the taxonomy, the taxonomy over the fuzzy lookup, and
      the fuzzy lookup is tried only on candidates of four or more characters that
      neither table knows. */
  lemma MatchMeaning(tax: SkillTaxonomy, lex: Lexicon, fuzzy: string -> Option<string>, candidate: string)
    ensures Lower(candidate) in lex.denylist ==> Match(tax, lex, fuzzy, candidate) == NoMatch
    ensures Lower(candidate) !in lex.denylist && Lower(candidate) in lex.canonicalSkills ==>
      Match(tax, lex, fuzzy, candidate) == Matched(Exact, lex.canonicalSkills[Lower(candidate)])
    ensures (Lower(candidate) !in lex.denylist && Lower(candidate) !in lex.canonicalSkills
             && tax.Valid() && tax.IsKnownSkill(candidate)) ==>
      Match(tax, lex, fuzzy, candidate) == Matched(Exact, tax.Normalize(candidate).value)
    ensures Match(tax, lex, fuzzy, candidate).Matched? && Match(tax, lex, fuzzy, candidate).kind == Fuzzy ==>
      && Lower(candidate) !in lex.denylist && Lower(candidate) !in lex.canonicalSkills
      && |candidate| >= 4 && fuzzy(candidate) == Some(Match(tax, lex, fuzzy, candidate).name)
    ensures tax.Valid() && Match(tax, lex, fuzzy, candidate).Matched? && Match(tax, lex, fuzzy, candidate).kind == Fuzzy ==>
      !tax.IsKnownSkill(candidate)
    ensures tax.Valid() && Match(tax, lex, fuzzy, candidate).Matched? && Match(tax, lex, fuzzy, candidate).kind == Exact ==>
      Match(tax, lex, fuzzy, candidate).name in lex.canonicalSkills.Values || Match(tax, lex, fuzzy, candidate).name in tax.Skills()
    ensures FuzzyFromSkills(tax, fuzzy) && Match(tax, lex, fuzzy, candidate).Matched? && Match(tax, lex, fuzzy, candidate).kind == Fuzzy ==>
      Match(tax, lex, fuzzy, candidate).name in tax.Skills()
  {
  }

  /** Whether a candidate matches exactly, and under which name, does not depend on its
      case. */
  lemma ExactMatchIgnoresCase(tax: SkillTaxonomy, lex: Lexicon, fuzzy: string -> Option<string>, candidate: string)
    ensures Match(tax, lex, fuzzy, candidate).Matched? && Match(tax, lex, fuzzy, candidate).kind == Exact
      <==> Match(tax, lex, fuzzy, Lower(candidate)).Matched? && Match(tax, lex, fuzzy, Lower(candidate)).kind == Exact
    ensures Match(tax, lex, fuzzy, candidate).Matched? && Match(tax, lex, fuzzy, candidate).kind == Exact ==>
      Match(tax, lex, fuzzy, Lower(candidate)) == Match(tax, lex, fuzzy, candidate)
  {
    var l := Lower(candidate);
    LowerIsLower(candidate);
    NormalizeIgnoresCase(tax, candidate);
    assert Lower(l) == Lower(candidate);
    assert ExactName(tax, lex, l) == ExactName(tax, lex, candidate);
    ExactIff(tax, lex, fuzzy, candidate);
    ExactIff(tax, lex, fuzzy, l);
  }

  /** `_match` answers EXACT exactly when the candidate is not denylisted and one of the
      exact tests succeeds. */
  lemma ExactIff(tax: SkillTaxonomy, lex: Lexicon, fuzzy: string -> Option<string>, candidate: string)
    ensures Match(tax, lex, fuzzy, candidate).Matched? && Match(tax, lex, fuzzy, candidate).kind == Exact
      <==> Lower(candidate) !in lex.denylist && ExactName(tax, lex, candidate).Some?
    ensures Lower(candidate) !in lex.denylist && ExactName(tax, lex, candidate).Some? ==>
      Match(tax, lex, fuzzy, candidate) == Matched(Exact, ExactName(tax, lex, candidate).value)
  {
  }

  // ---------------------------------------------------------------------------
  // Scores

  /** The base score times five: 1.0 for EXACT, 0.8 for FUZZY. */
  function BaseScore(m: MatchType): int
  {
    match m
    case Exact => 5
    case Fuzzy => 4
  }

  /** The section multiplier times two: 2.0, 1.0 or 0.5. */
  function Multiplier(t: SectionType): int
  {
    match t
    case Primary => 4
    case Secondary => 2
    case _ => 1
  }

  /** `base_score * multiplier`, times ten. */
  function Score(m: MatchType, t: SectionType): int
  {
    BaseScore(m) * Multiplier(t)
  }

  /** The source's real-valued factors. */
  function BaseScoreReal(m: MatchType): real
  {
    if m == Exact then 1.0 else 0.8
  }

  function MultiplierReal(t: SectionType): real
  {
    if t == Primary then 2.0 else if t == Secondary then 1.0 else 0.5
  }

  /** The integer scores are exactly ten times the source's products, and take six
      values. */
  lemma ScoreScaled(m: MatchType, t: SectionType)
    ensures Score(m, t) as real == 10.0 * BaseScoreReal(m) * MultiplierReal(t)
    ensures Score(m, t) in {20, 16, 10, 8, 5, 4}
    ensures Score(m, t) >= 16 <==> t == Primary
    ensures Score(m, t) == 10 <==> m == Exact && t == Secondary
  {
  }

  /** The acceptance rule of lines 211-220 on scaled scores: total = max + min(4, 2·count)
      at least 16, or count at least 2 and max at least 10. */
  predicate Accept(maxScore: int, count: nat)
  {
    maxScore + (if 2 * count < 4 then 2 * count else 4) >= 16 || (count >= 2 && maxScore >= 10)
  }

  /** The rule as the source writes it, on reals. */
  predicate AcceptReal(maxScore: real, count: nat)
  {
    maxScore + (if 0.2 * count as real < 0.4 then 0.2 * count as real else 0.4) >= 1.6
    || (count >= 2 && maxScore >= 1.0)
  }

  lemma AcceptScaled(maxScore: int, count: nat)
    ensures Accept(maxScore, count) <==> AcceptReal(maxScore as real / 10.0, count)
  {
  }

  /** The decision table: a best score of 16 or more is always kept, a best score of 10
      (EXACT in SECONDARY) is kept iff seen at least twice, and anything lower never is. */
  lemma AcceptDecision(maxScore: int, count: nat)
    requires maxScore in {20, 16, 10, 8, 5, 4} && count >= 1
    ensures Accept(maxScore, count) <==> maxScore >= 16 || (maxScore == 10 && count >= 2)
  {
  }

  // ---------------------------------------------------------------------------
  // _process_text_block

  /** What one candidate contributes (lines 354-366): nothing without a match, nothing
      for an unanchored candidate in a SECONDARY block, else its name and score. */
  function ScoreOne(tax: SkillTaxonomy, lex: Lexicon, fuzzy: string -> Option<string>, doc: seq<Token>,
                    c: Candidate, t: SectionType): seq<(string, int)>
    reads tax
  {
    if Match(tax, lex, fuzzy, c.text).NoMatch? then []
    else if t == Secondary && !Anchored(doc, c.start, c.end) then []
    else [(Match(tax, lex, fuzzy, c.text).name, Score(Match(tax, lex, fuzzy, c.text).kind, t))]
  }

  function ScoreAll(tax: SkillTaxonomy, lex: Lexicon, fuzzy: string -> Option<string>, doc: seq<Token>,
                    cs: seq<Candidate>, t: SectionType): seq<(string, int)>
    reads tax
  {
    if cs == [] then []
    else ScoreAll(tax, lex, fuzzy, doc, cs[..|cs| - 1], t) + ScoreOne(tax, lex, fuzzy, doc, cs[|cs| - 1], t)
  }

  /** The scored candidates of one tokenized block. */
  function DocPairs(tax: SkillTaxonomy, lex: Lexicon, fuzzy: string -> Option<string>, doc: seq<Token>,
                    t: SectionType): seq<(string, int)>
    reads tax
  {
    ScoreAll(tax, lex, fuzzy, doc, AllCandidates(doc), t)
  }

  /** `_process_text_block`. `tokenize` stands for the spaCy pipeline. */
  function BlockPairs(tax: SkillTaxonomy, lex: Lexicon, tokenize: string -> seq<Token>, fuzzy: string -> Option<string>,
                      block: string, t: SectionType): seq<(string, int)>
    reads tax
  {
    DocPairs(tax, lex, fuzzy, tokenize(Preprocess(block)), t)
  }

  /** A SECONDARY candidate counts only when anchored; in any other block a candidate
      counts exactly when it matches. */
  lemma ScoreOneAnchoring(tax: SkillTaxonomy, lex: Lexicon, fuzzy: string -> Option<string>, doc: seq<Token>,
                          c: Candidate, t: SectionType)
    ensures t == Secondary && ScoreOne(tax, lex, fuzzy, doc, c, t) != [] ==> Anchored(doc, c.start, c.end)
    ensures t != Secondary ==> (ScoreOne(tax, lex, fuzzy, doc, c, t) != [] <==> Match(tax, lex, fuzzy, c.text).Matched?)
  {
  }

  /** `_process_text_block`. */
  method ProcessTextBlock(tax: SkillTaxonomy, lex: Lexicon, tokenize: string -> seq<Token>, fuzzy: string -> Option<string>,
                          text: string, sectionType: SectionType) returns (results: seq<(string, int)>)
    ensures results == BlockPairs(tax, lex, tokenize, fuzzy, text, sectionType)
  {
    var cleanedText := Preprocess(text);
    var doc := tokenize(cleanedText);
    var candidates := GenerateCandidates(doc);
    results := ScoreCandidates(tax, lex, fuzzy, doc, candidates, sectionType);
  }

  /** The loop of `_process_text_block` over the candidates. */
  method ScoreCandidates(tax: SkillTaxonomy, lex: Lexicon, fuzzy: string -> Option<string>, doc: seq<Token>,
                         candidates: seq<Candidate>, sectionType: SectionType) returns (results: seq<(string, int)>)
    ensures results == ScoreAll(tax, lex, fuzzy, doc, candidates, sectionType)
  {
    results := [];
    for k := 0 to |candidates|
      invariant results == ScoreAll(tax, lex, fuzzy, doc, candidates[..k], sectionType)
    {
      assert candidates[..k + 1][..k] == candidates[..k];
      var scored := ScoreCandidate(tax, lex, fuzzy, doc, candidates[k], sectionType);
      results := results + scored;
    }
    assert candidates[..|candidates|] == candidates;
  }

  /** The body of the loop of `_process_text_block`: match, check the anchoring in a
      SECONDARY block, score. */
  method ScoreCandidate(tax: SkillTaxonomy, lex: Lexicon, fuzzy: string -> Option<string>, doc: seq<Token>,
                        c: Candidate, sectionType: SectionType) returns (scored: seq<(string, int)>)
    ensures scored == ScoreOne(tax, lex, fuzzy, doc, c, sectionType)
  {
    var m := Match(tax, lex, fuzzy, c.text);
    if m.NoMatch? {
      return [];
    }
    if sectionType == Secondary {
      var anchored := CheckAnchoring(doc, c.start, c.end);
      if !anchored {
        return [];
      }
    }
    var finalScore := BaseScore(m.kind) * Multiplier(sectionType);
    scored := [(m.name, finalScore)];
  }

  // ---------------------------------------------------------------------------
  // The tally in `extract` (lines 197-206) and the acceptance pass (lines 209-220)

  /** The scored skills of the blocks of one type, in order. */
  function SectionPairs(tax: SkillTaxonomy, lex: Lexicon, tokenize: string -> seq<Token>, fuzzy: string -> Option<string>,
                        blocks: seq<string>, t: SectionType): seq<(string, int)>
    reads tax
  {
    if blocks == [] then []
    else SectionPairs(tax, lex, tokenize, fuzzy, blocks[..|blocks| - 1], t) + BlockPairs(tax, lex, tokenize, fuzzy, blocks[|blocks| - 1], t)
  }

  /** Every scored skill of every block, types in the order PRIMARY, SECONDARY, TERTIARY,
      UNKNOWN (the order of the segmenter's dictionary). */
  function AllPairs(tax: SkillTaxonomy, lex: Lexicon, tokenize: string -> seq<Token>, fuzzy: string -> Option<string>,
                    sections: PerType<seq<string>>): seq<(string, int)>
    reads tax
  {
    TypesPairs(tax, lex, tokenize, fuzzy, sections, |SectionTypes|)
  }

  /** `skill_counts[skill]`: how often a skill was scored. */
  function Count(pairs: seq<(string, int)>, skill: string): nat
  {
    if pairs == [] then 0
    else Count(pairs[..|pairs| - 1], skill) + (if pairs[|pairs| - 1].0 == skill then 1 else 0)
  }

  /** `skill_scores[skill]`: its best score, from a default of 0. */
  function MaxScore(pairs: seq<(string, int)>, skill: string): int
  {
    if pairs == [] then 0
    else if pairs[|pairs| - 1].0 == skill && pairs[|pairs| - 1].1 > MaxScore(pairs[..|pairs| - 1], skill)
    then pairs[|pairs| - 1].1
    else MaxScore(pairs[..|pairs| - 1], skill)
  }

  /** `raw_skills`: the scored skills the acceptance rule keeps. */
  function RawSkills(pairs: seq<(string, int)>): set<string>
  {
    set p | p in pairs && Accept(MaxScore(pairs, p.0), Count(pairs, p.0)) :: p.0
  }

  /** The two dictionaries agree with the pairs seen so far. */
  ghost predicate Tallied(scores: map<string, int>, counts: map<string, nat>, pairs: seq<(string, int)>)
  {
    && (forall k :: k in counts <==> Count(pairs, k) > 0)
    && (forall k :: k in scores <==> Count(pairs, k) > 0)
    && (forall k :: k in counts ==> counts[k] == Count(pairs, k))
    && (forall k :: k in scores ==> scores[k] == MaxScore(pairs, k))
  }

  lemma TallyStep(scores: map<string, int>, counts: map<string, nat>, pairs: seq<(string, int)>, p: (string, int))
    requires Tallied(scores, counts, pairs)
    requires Count(pairs, p.0) == 0 ==> MaxScore(pairs, p.0) == 0
    ensures Tallied(
      scores[p.0 := if p.0 in scores && scores[p.0] >= p.1 then scores[p.0] else if p.0 in scores then p.1 else if 0 >= p.1 then 0 else p.1],
      counts[p.0 := (if p.0 in counts then counts[p.0] else 0) + 1],
      pairs + [p])
  {
    assert (pairs + [p])[..|pairs|] == pairs;
  }

  /** A skill nobody scored has the default best score 0. */
  lemma {:induction false} UnseenScore(pairs: seq<(string, int)>, skill: string)
    requires Count(pairs, skill) == 0
    ensures MaxScore(pairs, skill) == 0
  {
    if pairs != [] {
      UnseenScore(pairs[..|pairs| - 1], skill);
    }
  }

  /** Adds the pairs of one block to the two dictionaries (lines 204-206). */
  method TallyPairs(scores: map<string, int>, counts: map<string, nat>, ghost seen: seq<(string, int)>,
                    extracted: seq<(string, int)>)
    returns (scores': map<string, int>, counts': map<string, nat>)
    requires Tallied(scores, counts, seen)
    ensures Tallied(scores', counts', seen + extracted)
  {
    scores', counts' := scores, counts;
    assert seen + extracted[..0] == seen;
    for k := 0 to |extracted|
      invariant Tallied(scores', counts', seen + extracted[..k])
    {
      var (skill, score) := extracted[k];
      assert seen + extracted[..k + 1] == (seen + extracted[..k]) + [extracted[k]];
      if Count(seen + extracted[..k], skill) == 0 {
        UnseenScore(seen + extracted[..k], skill);
      }
      TallyStep(scores', counts', seen + extracted[..k], extracted[k]);
      var old_score := if skill in scores' then scores'[skill] else 0;
      scores' := scores'[skill := if old_score >= score then old_score else score];
      counts' := counts'[skill := (if skill in counts' then counts'[skill] else 0) + 1];
    }
    assert extracted[..|extracted|] == extracted;
  }

  /** Lines 197-220 of `extract`: score every block of every type, then keep the skills
      the acceptance rule allows. */
  method ScoreSkills(tax: SkillTaxonomy, lex: Lexicon, tokenize: string -> seq<Token>, fuzzy: string -> Option<string>,
                     sections: PerType<seq<string>>) returns (rawSkills: set<string>)
    ensures rawSkills == RawSkills(AllPairs(tax, lex, tokenize, fuzzy, sections))
  {
    var skillScores: map<string, int> := map[];
    var skillCounts: map<string, nat> := map[];
    ghost var seen: seq<(string, int)> := [];
    for s := 0 to |SectionTypes|
      invariant Tallied(skillScores, skillCounts, seen)
      invariant seen == TypesPairs(tax, lex, tokenize, fuzzy, sections, s)
    {
      var sectionType := SectionTypes[s];
      skillScores, skillCounts := TallySection(tax, lex, tokenize, fuzzy, skillScores, skillCounts, seen,
                                               sections.Get(sectionType), sectionType);
      seen := seen + SectionPairs(tax, lex, tokenize, fuzzy, sections.Get(sectionType), sectionType);
    }
    rawSkills := AcceptedSkills(skillScores, skillCounts, seen);
  }

  /** Scores the blocks of one type into the two dictionaries (lines 200-206). */
  method TallySection(tax: SkillTaxonomy, lex: Lexicon, tokenize: string -> seq<Token>, fuzzy: string -> Option<string>,
                      scores: map<string, int>, counts: map<string, nat>, ghost seen: seq<(string, int)>,
                      textBlocks: seq<string>, sectionType: SectionType)
    returns (scores': map<string, int>, counts': map<string, nat>)
    requires Tallied(scores, counts, seen)
    ensures Tallied(scores', counts', seen + SectionPairs(tax, lex, tokenize, fuzzy, textBlocks, sectionType))
  {
    scores', counts' := scores, counts;
    assert seen + SectionPairs(tax, lex, tokenize, fuzzy, textBlocks[..0], sectionType) == seen;
    for b := 0 to |textBlocks|
      invariant Tallied(scores', counts', seen + SectionPairs(tax, lex, tokenize, fuzzy, textBlocks[..b], sectionType))
    {
      assert textBlocks[..b + 1][..b] == textBlocks[..b];
      ghost var done := SectionPairs(tax, lex, tokenize, fuzzy, textBlocks[..b], sectionType);
      var extracted := ProcessTextBlock(tax, lex, tokenize, fuzzy, textBlocks[b], sectionType);
      scores', counts' := TallyPairs(scores', counts', seen + done, extracted);
      assert SectionPairs(tax, lex, tokenize, fuzzy, textBlocks[..b + 1], sectionType) == done + extracted;
      AppendAssociative(seen, done, extracted);
    }
    assert textBlocks[..|textBlocks|] == textBlocks;
  }

  /** The acceptance pass (lines 209-220). */
  method AcceptedSkills(scores: map<string, int>, counts: map<string, nat>, ghost seen: seq<(string, int)>)
    returns (rawSkills: set<string>)
    requires Tallied(scores, counts, seen)
    ensures rawSkills == RawSkills(seen)
  {
    rawSkills := {};
    var rest := counts.Keys;
    while rest != {}
      invariant rest <= counts.Keys
      invariant forall k :: k in rawSkills <==> k in counts.Keys - rest && Accept(scores[k], counts[k])
      decreases |rest|
    {
      var skill :| skill in rest;
      var count := counts[skill];
      var baseSectionScore := scores[skill];
      if Accept(baseSectionScore, count) {
        rawSkills := rawSkills + {skill};
      }
      rest := rest - {skill};
    }
    RawSkillsMeaning(seen);
  }

  /** The pairs of the first `s` section types. */
  function TypesPairs(tax: SkillTaxonomy, lex: Lexicon, tokenize: string -> seq<Token>, fuzzy: string -> Option<string>,
                      sections: PerType<seq<string>>, s: nat): seq<(string, int)>
    requires s <= |SectionTypes|
    reads tax
  {
    if s == 0 then []
    else
      TypesPairs(tax, lex, tokenize, fuzzy, sections, s - 1)
      + SectionPairs(tax, lex, tokenize, fuzzy, sections.Get(SectionTypes[s - 1]), SectionTypes[s - 1])
  }

  lemma AppendAssociative<T>(a: seq<T>, b: seq<T>, c: seq<T>)
    ensures (a + b) + c == a + (b + c)
  {
  }

  // ---------------------------------------------------------------------------
  // Properties of the tally

  /** A skill is kept iff it was scored and its count and best score pass the rule. */
  lemma RawSkillsMeaning(pairs: seq<(string, int)>)
    ensures forall k :: k in RawSkills(pairs) <==> Count(pairs, k) > 0 && Accept(MaxScore(pairs, k), Count(pairs, k))
  {
    forall k ensures k in RawSkills(pairs) <==> Count(pairs, k) > 0 && Accept(MaxScore(pairs, k), Count(pairs, k)) {
      if k in RawSkills(pairs) {
        var p :| p in pairs && Accept(MaxScore(pairs, p.0), Count(pairs, p.0)) && p.0 == k;
        var i :| 0 <= i < |pairs| && pairs[i] == p;
        MaxScoreBounds(pairs, i);
      }
      if Count(pairs, k) > 0 && Accept(MaxScore(pairs, k), Count(pairs, k)) {
        var i := Occurrence(pairs, k);
        assert pairs[i] in pairs;
      }
    }
  }

  /** A skill that was counted occurs in the pairs. */
  lemma {:induction false} Occurrence(pairs: seq<(string, int)>, k: string) returns (i: nat)
    requires Count(pairs, k) > 0
    ensures i < |pairs| && pairs[i].0 == k
  {
    if pairs[|pairs| - 1].0 == k {
      i := |pairs| - 1;
    } else {
      i := Occurrence(pairs[..|pairs| - 1], k);
    }
  }

  /** A skill occurring in the pairs is counted, and its best score bounds each of its
      scores. */
  lemma {:induction false} MaxScoreBounds(pairs: seq<(string, int)>, i: nat)
    requires i < |pairs|
    ensures Count(pairs, pairs[i].0) > 0
    ensures MaxScore(pairs, pairs[i].0) >= pairs[i].1
  {
    if i < |pairs| - 1 {
      MaxScoreBounds(pairs[..|pairs| - 1], i);
    }
  }

  /** When every score of a skill is at most `bound` (and `bound` is not negative), so is
      its best score. */
  lemma {:induction false} MaxScoreAtMost(pairs: seq<(string, int)>, k: string, bound: int)
    requires bound >= 0
    requires forall i :: 0 <= i < |pairs| && pairs[i].0 == k ==> pairs[i].1 <= bound
    ensures MaxScore(pairs, k) <= bound
  {
    if pairs != [] {
      MaxScoreAtMost(pairs[..|pairs| - 1], k, bound);
    }
  }

  /** A PRIMARY exact hit (score 20) alone keeps a skill. */
  lemma PrimaryExactKept(pairs: seq<(string, int)>, i: nat)
    requires i < |pairs| && pairs[i].1 == Score(Exact, Primary)
    ensures pairs[i].0 in RawSkills(pairs)
  {
    MaxScoreBounds(pairs, i);
    RawSkillsMeaning(pairs);
  }

  /** A skill scored only in TERTIARY or UNKNOWN blocks (at most 5) is never kept, nor is
      one whose best is a FUZZY hit in a SECONDARY block (8). */
  lemma LowScoresNeverKept(pairs: seq<(string, int)>, k: string)
    requires forall i :: 0 <= i < |pairs| && pairs[i].0 == k ==> pairs[i].1 <= Score(Fuzzy, Secondary)
    ensures k !in RawSkills(pairs)
  {
    MaxScoreAtMost(pairs, k, 8);
    RawSkillsMeaning(pairs);
  }

  /** A skill whose best is an EXACT hit in a SECONDARY block (10) is kept iff it was
      scored at least twice. */
  lemma SecondaryExactNeedsRepeat(pairs: seq<(string, int)>, k: string)
    requires Count(pairs, k) > 0 && MaxScore(pairs, k) == Score(Exact, Secondary)
    ensures k in RawSkills(pairs) <==> Count(pairs, k) >= 2
  {
    RawSkillsMeaning(pairs);
  }
}
