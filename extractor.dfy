/** `SkillExtractor.extract` (app/services/skill_extractor.py): segment the resume, score
    the candidates of every block, keep the skills the acceptance rule allows and clean
    them up. */
module Extractor {
  import opened Text
  import opened Wrappers
  import opened SkillTables
  import opened Taxonomy
  import opened Segmenter
  import opened Candidates
  import opened Scoring
  import opened PostProcess
  import opened Order

  /** The skills `extract` reports for a non-blank text, given the variants the
      deduplication keeps. */
  ghost predicate Extracted(tax: SkillTaxonomy, lex: Lexicon, tokenize: string -> seq<Token>,
                            fuzzy: string -> Option<string>, text: string, skills: seq<string>)
    reads tax
  {
    PostProcessed(tax, lex, RawSkills(AllPairs(tax, lex, tokenize, fuzzy, Render(SegmentBlocks(text)))), skills)
  }

  class SkillExtractor {
    const taxonomy: SkillTaxonomy
    /** The class constants DENYLIST, ABSTRACTION_RULES and CANONICAL_SKILLS. */
    const lexicon: Lexicon

    /** `SkillExtractor(taxonomy)`; building the default taxonomy when none is given is
        not part of this model. */
    constructor (taxonomy: SkillTaxonomy)
      ensures this.taxonomy == taxonomy && lexicon == Source
    {
      this.taxonomy := taxonomy;
      lexicon := Source;
    }

    /** `extract`. `tokenize` stands for spaCy and `fuzzy` for the rapidfuzz lookup. */
    method Extract(tokenize: string -> seq<Token>, fuzzy: string -> Option<string>, text: string)
      returns (skills: seq<string>)
      ensures AllSpace(text) ==> skills == []
      ensures !AllSpace(text) ==> Extracted(taxonomy, lexicon, tokenize, fuzzy, text, skills)
      ensures StrictlySorted(skills)
      ensures taxonomy.Valid() ==>
        forall y :: y in skills ==> y in lexicon.canonicalSkills.Values || y in taxonomy.Skills()
    {
      var _ := StripShape(text);
      if text == [] || Strip(text) == [] {
        return [];
      }
      var sections := Segment(text);
      var rawSkills := ScoreSkills(taxonomy, lexicon, tokenize, fuzzy, sections);
      skills := PostProcessSkills(taxonomy, lexicon, rawSkills);
    }
  }

  /** When no skill passes the acceptance rule, `extract` reports nothing. */
  lemma NothingAcceptedNothingReported(tax: SkillTaxonomy, lex: Lexicon, r: seq<string>)
    requires PostProcessed(tax, lex, {}, r)
    ensures r == []
  {
    var deduped :| IsDedup(deduped, ExpandAll(tax, {}))
      && forall y :: y in r <==> y in Normalized(tax, lex, WithoutAbstractions(lex, deduped));
    assert deduped == {};
    assert WithoutAbstractions(lex, deduped) == {};
    assert Normalized(tax, lex, {}) == {};
    NoMembersEmpty(r);
  }
}
