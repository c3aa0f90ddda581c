/** The clean-up of the extractor's accepted skills (app/services/skill_extractor.py,
    `_post_process`, `_normalize_and_deduplicate`, `_split_composite` and
    `_to_canonical`): split compounds, drop case duplicates, drop generic terms that a
    specific one makes redundant, map every part to its canonical name and sort. */
module PostProcess {
  import opened Text
  import opened Wrappers
  import opened SkillTables
  import opened Taxonomy
  import opened Order

  // ---------------------------------------------------------------------------
  // Step 1: splitting compounds (lines 238-262)

  /** One stripped part of a split skill: kept, under the taxonomy's name, when it has
      two or more characters and the taxonomy knows it. */
  function ExpandPart(tax: SkillTaxonomy, part: string): set<string>
    reads tax
  {
    if |part| < 2 then {}
    else if tax.Normalize(part).Some? && tax.Normalize(part).value != "" then {tax.Normalize(part).value}
    else if tax.IsKnownSkill(part) then {part}
    else {}
  }

  function ExpandParts(tax: SkillTaxonomy, parts: seq<string>): set<string>
    reads tax
  {
    if parts == [] then {}
    else ExpandParts(tax, parts[..|parts| - 1]) + ExpandPart(tax, Strip(parts[|parts| - 1]))
  }

  /** What one accepted skill becomes: its comma-separated parts when it holds ", ", its
      slash-separated parts when it holds '/' and is not itself a known skill, else
      itself. */
  function Expand(tax: SkillTaxonomy, skill: string): set<string>
    reads tax
  {
    if Contains(skill, ", ") then ExpandParts(tax, SplitOn(skill, ','))
    else if '/' in skill && !tax.IsKnownSkill(skill) then ExpandParts(tax, SplitOn(skill, '/'))
    else {skill}
  }

  ghost function ExpandAll(tax: SkillTaxonomy, skills: set<string>): set<string>
    reads tax
  {
    set s, p | s in skills && p in Expand(tax, s) :: p
  }

  /** A skill with neither ", " nor '/' is kept as it is, and so is a known compound such
      as "CI/CD". */
  lemma ExpandKeeps(tax: SkillTaxonomy, skill: string)
    requires !Contains(skill, ", ")
    requires '/' !in skill || tax.IsKnownSkill(skill)
    ensures Expand(tax, skill) == {skill}
  {
  }

  /** A split skill yields only parts the taxonomy knows, under the taxonomy's names. */
  lemma {:induction false} ExpandPartsKnown(tax: SkillTaxonomy, parts: seq<string>)
    requires tax.Valid()
    ensures forall p :: p in ExpandParts(tax, parts) ==> p in tax.Skills()
  {
    if parts != [] {
      ExpandPartsKnown(tax, parts[..|parts| - 1]);
      ExpandPartKnown(tax, Strip(parts[|parts| - 1]));
    }
  }

  lemma ExpandPartKnown(tax: SkillTaxonomy, part: string)
    requires tax.Valid()
    ensures forall p :: p in ExpandPart(tax, part) ==> p in tax.Skills()
  {
  }

  lemma ExpandKnown(tax: SkillTaxonomy, skill: string)
    requires tax.Valid()
    ensures forall p :: p in Expand(tax, skill) ==> p == skill || p in tax.Skills()
  {
    ExpandPartsKnown(tax, SplitOn(skill, ','));
    ExpandPartsKnown(tax, SplitOn(skill, '/'));
  }

  /** The inner loops of lines 242-258 over the parts of one split skill. */
  method ExpandSplit(tax: SkillTaxonomy, parts: seq<string>) returns (expanded: set<string>)
    ensures expanded == ExpandParts(tax, parts)
  {
    expanded := {};
    for i := 0 to |parts|
      invariant expanded == ExpandParts(tax, parts[..i])
    {
      assert parts[..i + 1][..i] == parts[..i];
      var found := ExpandOnePart(tax, Strip(parts[i]));
      expanded := expanded + found;
    }
    assert parts[..|parts|] == parts;
  }

  /** The body of the inner loops of lines 242-258. */
  method ExpandOnePart(tax: SkillTaxonomy, part: string) returns (found: set<string>)
    ensures found == ExpandPart(tax, part)
  {
    found := {};
    if |part| >= 2 {
      var canonical := tax.Normalize(part);
      if canonical.Some? && canonical.value != "" {
        found := {canonical.value};
      } else if tax.IsKnownSkill(part) {
        found := {part};
      }
    }
  }

  /** The body of the loop of lines 238-262 for one skill. */
  method ExpandSkill(tax: SkillTaxonomy, skill: string) returns (expanded: set<string>)
    ensures expanded == Expand(tax, skill)
  {
    if Contains(skill, ", ") {
      expanded := ExpandSplit(tax, SplitOn(skill, ','));
    } else if '/' in skill && !tax.IsKnownSkill(skill) {
      expanded := ExpandSplit(tax, SplitOn(skill, '/'));
    } else {
      expanded := {skill};
    }
  }

  /** Lines 236-262. */
  method ExpandSkills(tax: SkillTaxonomy, skills: set<string>) returns (expanded: set<string>)
    ensures expanded == ExpandAll(tax, skills)
  {
    expanded := {};
    var rest := skills;
    while rest != {}
      invariant rest <= skills
      invariant forall p :: p in expanded <==> exists s :: s in skills - rest && p in Expand(tax, s)
      decreases |rest|
    {
      var skill :| skill in rest;
      var parts := ExpandSkill(tax, skill);
      expanded := expanded + parts;
      rest := rest - {skill};
      assert skills - rest == (skills - (rest + {skill})) + {skill};
    }
  }

  // ---------------------------------------------------------------------------
  // Step 2: case-insensitive deduplication (lines 264-271)

  function LowerSet(skills: set<string>): set<string>
  {
    set s | s in skills :: Lower(s)
  }

  /** No two skills differ only in case. */
  predicate UniqueLower(skills: set<string>)
  {
    forall a, b :: a in skills && b in skills && Lower(a) == Lower(b) ==> a == b
  }

  /** `deduped` keeps exactly one cased variant of every lowercase form in `expanded`.
      Which variant is left open: the source keeps the first one its set iteration
      meets. */
  ghost predicate IsDedup(deduped: set<string>, expanded: set<string>)
  {
    && deduped <= expanded
    && (forall x :: x in expanded ==> Lower(x) in LowerSet(deduped))
    && UniqueLower(deduped)
  }

  method Dedup(expanded: set<string>) returns (deduped: set<string>)
    ensures IsDedup(deduped, expanded)
  {
    var seenLower: map<string, string> := map[];
    deduped := {};
    var rest := expanded;
    while rest != {}
      invariant rest <= expanded
      invariant DedupInv(expanded - rest, seenLower, deduped)
      decreases |rest|
    {
      var skill :| skill in rest;
      seenLower, deduped := DedupStep(expanded - rest, seenLower, deduped, skill);
      assert expanded - (rest - {skill}) == (expanded - rest) + {skill};
      rest := rest - {skill};
    }
    forall x | x in expanded ensures Lower(x) in LowerSet(deduped) {
      assert seenLower[Lower(x)] in deduped;
    }
  }

  /** What the loop of lines 266-271 keeps true: `seenLower` maps the lowercase form of
      every skill seen so far to the one variant kept. */
  ghost predicate DedupInv(done: set<string>, seenLower: map<string, string>, deduped: set<string>)
  {
    && deduped <= done
    && (forall x :: x in done ==> Lower(x) in seenLower)
    && (forall k :: k in seenLower ==> seenLower[k] in deduped && Lower(seenLower[k]) == k)
    && (forall y :: y in deduped ==> Lower(y) in seenLower && seenLower[Lower(y)] == y)
  }

  /** The body of the loop of lines 266-271. */
  method DedupStep(ghost done: set<string>, seenLower: map<string, string>, deduped: set<string>, skill: string)
    returns (seenLower': map<string, string>, deduped': set<string>)
    requires DedupInv(done, seenLower, deduped)
    ensures DedupInv(done + {skill}, seenLower', deduped')
  {
    var lower := Lower(skill);
    seenLower', deduped' := seenLower, deduped;
    if lower !in seenLower {
      seenLower' := seenLower[lower := skill];
      deduped' := deduped + {skill};
    }
  }

  /** Deduplication loses no lowercase form and adds none, whichever variants it keeps. */
  lemma DedupKeepsForms(deduped: set<string>, expanded: set<string>)
    requires IsDedup(deduped, expanded)
    ensures LowerSet(deduped) == LowerSet(expanded)
  {
  }

  // ---------------------------------------------------------------------------
  // Step 3: generic terms made redundant by specific ones (lines 273-285)

  /** Rule `i` fires on a set of lowercase forms: its generic term is there, and so is at
      least one of its specific terms. */
  predicate RuleFires(lex: Lexicon, i: nat, lowers: set<string>)
    requires i < |lex.abstractionRules|
  {
    lex.abstractionRules[i].0 in lowers
    && exists sp :: sp in lex.abstractionRules[i].1 && sp in lowers
  }

  /** A skill is redundant when its lowercase form is the generic term of a rule that
      fires. */
  predicate Redundant(lex: Lexicon, skill: string, lowers: set<string>)
  {
    exists i :: 0 <= i < |lex.abstractionRules| && lex.abstractionRules[i].0 == Lower(skill) && RuleFires(lex, i, lowers)
  }

  function WithoutAbstractions(lex: Lexicon, deduped: set<string>): set<string>
  {
    set s | s in deduped && !Redundant(lex, s, LowerSet(deduped))
  }

  /** Lines 273-285: for every rule that fires, the one entry whose lowercase form is the
      generic term is removed. */
  method RemoveAbstractions(lex: Lexicon, deduped: set<string>) returns (kept: set<string>)
    requires UniqueLower(deduped)
    ensures kept == WithoutAbstractions(lex, deduped)
  {
    var skillsLower := set s | s in deduped :: Lower(s);
    var toRemove: set<string> := {};
    for i := 0 to |lex.abstractionRules|
      invariant toRemove <= deduped
      invariant forall s :: s in toRemove <==>
        (s in deduped && exists j :: 0 <= j < i && lex.abstractionRules[j].0 == Lower(s) && RuleFires(lex, j, skillsLower))
    {
      var (generic, specifics) := lex.abstractionRules[i];
      if generic in skillsLower {
        if exists sp :: sp in specifics && sp in skillsLower {
          assert RuleFires(lex, i, skillsLower);
          var s :| s in deduped && Lower(s) == generic;
          toRemove := toRemove + {s};
        }
      }
    }
    kept := deduped - toRemove;
  }

  /** A second pass removes nothing more. */
  lemma WithoutAbstractionsIdempotent(lex: Lexicon, deduped: set<string>)
    ensures WithoutAbstractions(lex, WithoutAbstractions(lex, deduped)) == WithoutAbstractions(lex, deduped)
  {
    var w := WithoutAbstractions(lex, deduped);
    assert LowerSet(w) <= LowerSet(deduped);

  }

  // ---------------------------------------------------------------------------
  // Step 4: final canonical normalization (lines 287-342)

  const CompositeSeparators: set<char> := {'/', '|', ',', '&'}

  /** The stripped, non-blank parts. */
  function NonBlankParts(parts: seq<string>): seq<string>
  {
    if parts == [] then []
    else if Strip(parts[|parts| - 1]) == [] then NonBlankParts(parts[..|parts| - 1])
    else NonBlankParts(parts[..|parts| - 1]) + [Strip(parts[|parts| - 1])]
  }

  /** `_split_composite`: a skill the canonical table knows is kept whole; any other is
      split on '/', '|', ',' and '&' into its stripped non-blank parts. */
  function SplitComposite(lex: Lexicon, skill: string): seq<string>
  {
    if Lower(skill) in lex.canonicalSkills then [skill]
    else NonBlankParts(Split(skill, CompositeSeparators))
  }

  /** `_to_canonical`: the canonical table's name for the stripped lowercase form, else
      the taxonomy's name, else the skill itself when the taxonomy knows it. */
  function ToCanonical(tax: SkillTaxonomy, lex: Lexicon, skill: string): Option<string>
    reads tax
  {
    if Strip(Lower(skill)) in lex.canonicalSkills then Some(lex.canonicalSkills[Strip(Lower(skill))])
    else if tax.Normalize(skill).Some? && tax.Normalize(skill).value != "" then tax.Normalize(skill)
    else if tax.IsKnownSkill(skill) then Some(skill)
    else None
  }

  /** What one stripped part contributes. */
  function PartCanonical(tax: SkillTaxonomy, lex: Lexicon, part: string): set<string>
    reads tax
  {
    if |part| < 2 then {}
    else if ToCanonical(tax, lex, part).Some? && ToCanonical(tax, lex, part).value != "" then {ToCanonical(tax, lex, part).value}
    else {}
  }

  function PartsCanonical(tax: SkillTaxonomy, lex: Lexicon, parts: seq<string>): set<string>
    reads tax
  {
    if parts == [] then {}
    else PartsCanonical(tax, lex, parts[..|parts| - 1]) + PartCanonical(tax, lex, Strip(parts[|parts| - 1]))
  }

  ghost function Normalized(tax: SkillTaxonomy, lex: Lexicon, skills: set<string>): set<string>
    reads tax
  {
    set s, p | s in skills && p in PartsCanonical(tax, lex, SplitComposite(lex, s)) :: p
  }

  /** A part of a split skill is non-blank, carries no surrounding space and holds none
      of the separators. */
  lemma SplitCompositeShape(lex: Lexicon, skill: string)
    requires Lower(skill) !in lex.canonicalSkills
    ensures forall i :: 0 <= i < |SplitComposite(lex, skill)| ==>
      SplitComposite(lex, skill)[i] != [] && NoEdgeSpace(SplitComposite(lex, skill)[i])
      && forall j :: 0 <= j < |SplitComposite(lex, skill)[i]| ==> SplitComposite(lex, skill)[i][j] !in CompositeSeparators
  {
    var pieces := Split(skill, CompositeSeparators);
    var r := SplitComposite(lex, skill);
    NonBlankPartsFrom(pieces);
    forall i | 0 <= i < |r|
      ensures r[i] != [] && NoEdgeSpace(r[i])
      ensures forall j :: 0 <= j < |r[i]| ==> r[i][j] !in CompositeSeparators
    {
      var k :| 0 <= k < |pieces| && r[i] == Strip(pieces[k]);
      StripKeepsOut(pieces[k], CompositeSeparators);
    }
  }

  /** Stripping adds no character. */
  lemma StripKeepsOut(s: string, cs: set<char>)
    requires forall j :: 0 <= j < |s| ==> s[j] !in cs
    ensures NoEdgeSpace(Strip(s))
    ensures forall j :: 0 <= j < |Strip(s)| ==> Strip(s)[j] !in cs
  {
    var lo := StripShape(s);
    forall j | 0 <= j < |Strip(s)| ensures Strip(s)[j] !in cs {
      assert Strip(s)[j] == s[lo + j];
    }
  }

  /** Every part of `NonBlankParts(parts)` is a non-blank stripped element of `parts`. */
  lemma {:induction false} NonBlankPartsFrom(parts: seq<string>)
    ensures forall i :: 0 <= i < |NonBlankParts(parts)| ==>
      NonBlankParts(parts)[i] != [] && exists k :: 0 <= k < |parts| && NonBlankParts(parts)[i] == Strip(parts[k])
  {
    if parts != [] {
      NonBlankPartsFrom(parts[..|parts| - 1]);
      var r := NonBlankParts(parts);
      var r0 := NonBlankParts(parts[..|parts| - 1]);
      forall i | 0 <= i < |r| ensures r[i] != [] && exists k :: 0 <= k < |parts| && r[i] == Strip(parts[k]) {
        if i < |r0| {
          var k :| 0 <= k < |parts[..|parts| - 1]| && r0[i] == Strip(parts[..|parts| - 1][k]);
          assert r[i] == Strip(parts[k]);
        } else {
          assert r[i] == Strip(parts[|parts| - 1]);
        }
      }
    }
  }

  /** A skill holding no separator stays whole (stripped). */
  lemma SplitCompositePlain(lex: Lexicon, skill: string)
    requires forall j :: 0 <= j < |skill| ==> skill[j] !in CompositeSeparators
    requires HasNonSpace(skill)
    ensures Lower(skill) in lex.canonicalSkills ==> SplitComposite(lex, skill) == [skill]
    ensures Lower(skill) !in lex.canonicalSkills ==> SplitComposite(lex, skill) == [Strip(skill)]
  {
    SplitNoSeparator(skill, CompositeSeparators);
    var _ := StripShape(skill);
    assert Strip(skill) != [];
    assert [skill][..0] == [];
    assert NonBlankParts([skill]) == NonBlankParts([]) + [Strip(skill)];
  }

  /** The canonical name of a skill does not depend on its case. */
  lemma ToCanonicalIgnoresCase(tax: SkillTaxonomy, lex: Lexicon, skill: string)
    requires tax.Valid()
    ensures ToCanonical(tax, lex, Lower(skill)) == ToCanonical(tax, lex, skill)
  {
    LowerIsLower(skill);
    NormalizeIgnoresCase(tax, skill);
  }

  /** Every canonical name is a value of the canonical table or a taxonomy skill. */
  lemma ToCanonicalNames(tax: SkillTaxonomy, lex: Lexicon, skill: string)
    requires tax.Valid()
    ensures ToCanonical(tax, lex, skill).Some? ==>
      ToCanonical(tax, lex, skill).value in lex.canonicalSkills.Values || ToCanonical(tax, lex, skill).value in tax.Skills()
  {
    if Strip(Lower(skill)) in lex.canonicalSkills {
      assert lex.canonicalSkills[Strip(Lower(skill))] in lex.canonicalSkills.Values;
    }
  }

  lemma {:induction false} PartsCanonicalNames(tax: SkillTaxonomy, lex: Lexicon, parts: seq<string>)
    requires tax.Valid()
    ensures forall p :: p in PartsCanonical(tax, lex, parts) ==> p in lex.canonicalSkills.Values || p in tax.Skills()
  {
    if parts != [] {
      PartsCanonicalNames(tax, lex, parts[..|parts| - 1]);
      ToCanonicalNames(tax, lex, Strip(parts[|parts| - 1]));
    }
  }

  lemma NormalizedNames(tax: SkillTaxonomy, lex: Lexicon, skills: set<string>)
    requires tax.Valid()
    ensures forall p :: p in Normalized(tax, lex, skills) ==> p in lex.canonicalSkills.Values || p in tax.Skills()
  {
    forall p | p in Normalized(tax, lex, skills) ensures p in lex.canonicalSkills.Values || p in tax.Skills() {
      var s :| s in skills && p in PartsCanonical(tax, lex, SplitComposite(lex, s));
      PartsCanonicalNames(tax, lex, SplitComposite(lex, s));
    }
  }

  /** The inner loop of lines 302-311. */
  method CanonicalizeParts(tax: SkillTaxonomy, lex: Lexicon, parts: seq<string>) returns (normalized: set<string>)
    ensures normalized == PartsCanonical(tax, lex, parts)
  {
    normalized := {};
    for i := 0 to |parts|
      invariant normalized == PartsCanonical(tax, lex, parts[..i])
    {
      assert parts[..i + 1][..i] == parts[..i];
      var found := CanonicalizePart(tax, lex, Strip(parts[i]));
      normalized := normalized + found;
    }
    assert parts[..|parts|] == parts;
  }

  /** The body of the inner loop of lines 302-311. */
  method CanonicalizePart(tax: SkillTaxonomy, lex: Lexicon, partClean: string) returns (found: set<string>)
    ensures found == PartCanonical(tax, lex, partClean)
  {
    if |partClean| < 2 {
      return {};
    }
    var canonical := ToCanonical(tax, lex, partClean);
    if canonical.Some? && canonical.value != "" {
      found := {canonical.value};
    } else {
      found := {};
    }
  }

  /** `_normalize_and_deduplicate`: the canonical names of all parts, sorted. */
  method NormalizeAndDeduplicate(tax: SkillTaxonomy, lex: Lexicon, skills: set<string>) returns (r: seq<string>)
    ensures StrictlySorted(r)
    ensures forall y :: y in r <==> y in Normalized(tax, lex, skills)
  {
    var normalized: set<string> := {};
    var rest := skills;
    while rest != {}
      invariant rest <= skills
      invariant forall p :: p in normalized <==>
        exists s :: s in skills - rest && p in PartsCanonical(tax, lex, SplitComposite(lex, s))
      decreases |rest|
    {
      var skill :| skill in rest;
      var parts := SplitComposite(lex, skill);
      var found := CanonicalizeParts(tax, lex, parts);
      normalized := normalized + found;
      rest := rest - {skill};
    }
    r := SortedList(normalized);
  }

  // ---------------------------------------------------------------------------
  // `_post_process`

  /** What `_post_process` returns for the accepted skills `skills`, given the variants
      its deduplication kept. */
  ghost predicate PostProcessed(tax: SkillTaxonomy, lex: Lexicon, skills: set<string>, r: seq<string>)
    reads tax
  {
    && StrictlySorted(r)
    && exists deduped ::
         && IsDedup(deduped, ExpandAll(tax, skills))
         && forall y :: y in r <==> y in Normalized(tax, lex, WithoutAbstractions(lex, deduped))
  }

  method PostProcessSkills(tax: SkillTaxonomy, lex: Lexicon, skills: set<string>) returns (r: seq<string>)
    ensures PostProcessed(tax, lex, skills, r)
    ensures tax.Valid() ==> forall y :: y in r ==> y in lex.canonicalSkills.Values || y in tax.Skills()
  {
    var expanded := ExpandSkills(tax, skills);
    var deduped := Dedup(expanded);
    var kept := RemoveAbstractions(lex, deduped);
    r := NormalizeAndDeduplicate(tax, lex, kept);
    if tax.Valid() {
      NormalizedNames(tax, lex, kept);
    }
  }
}
