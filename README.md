# Skill-Gap-Analyzer, modelled in Dafny

The Skill-Gap-Analyzer reads a resume and finds the skills in it. It then compares them
with the skills a target role requires and reports which ones are covered and which are
missing. This project models the deterministic core of that system and proves properties
of the model.

- **Skill extractor.** The resume is split into trusted and less trusted sections, and
  candidate spans are generated from tokens. Candidates are matched against a denylist,
  a canonical table and the skill taxonomy. They are scored by section and frequency,
  kept by an acceptance rule, and post-processed: split, deduplicated, cleared of
  generic abstractions, and canonicalised into a sorted list.
- **Resume segmenter.** A line-by-line scan that tracks the current section type and a
  buffer of lines. Lines such as "Tech stack: ..." are promoted to the PRIMARY section.
- **Skill taxonomy.** The lowercase lookup map built from the dataset and the alias
  table, together with `normalize`, `is_known_skill`, `get_canonical`, `skills` and
  `skill_count`.
- **Gap analyzer.** The database-first source of required skills. Requirements are cut
  into chunks and sorted into three tiers by similarity score. An LLM verifier decides
  the borderline cases, and the service computes statistics and percentages.
- **Gap-list endpoint.** Exact matching, then semantic matching, then verifier matching
  of target skills against resume skills. It also computes the matching statistics and
  the input passed to the roadmap generator.
- **Job database.** Filtering by role and experience level, parsing of skill fields, the
  available roles, and similar-role search.
- **Verifier.** Validation of LLM replies, the threshold fallback, and batch
  verification.
- **Parser.** `clean_text`.

Files and modules:

| file | module |
|---|---|
| `text.dfy` | `Text`: ASCII case folding, `strip`, whitespace collapsing, splitting and joining |
| `order.dfy` | `Order`: `sorted(set(...))` |
| `wrappers.dfy` | `Wrappers`: `Option` |
| `skill_tables.dfy` | the constant tables of the extractor and the taxonomy |
| `taxonomy.dfy`, `segmenter.dfy`, `candidates.dfy`, `scoring.dfy`, `post_process.dfy`, `extractor.dfy` | the extraction pipeline |
| `job_database.dfy`, `rag_verifier.dfy`, `analyzer.dfy`, `gap_lists.dfy`, `parser.dfy` | the services and the gap-list endpoint |

Some external components become inputs of the model:

| source component | in the model |
|---|---|
| spaCy tokenisation | a function from text to token records (text, lemma, stop-word flag, punctuation flag) |
| rapidfuzz lookup | a function from a candidate to an optional skill name |
| vector search | a function from a requirement to an optional (score, text) hit |
| embedding similarity | a function from (target, resume skill) to a `real` |
| LLM reply | a function from (skill, context, score) to a parsed JSON object or a failure |
| skill generator | a function from (role, level) to a skill list |
| `json.loads` | a function from a string to an optional list |
| `difflib.get_close_matches` | a function from (role, titles, limit) to a list |
| the loaded datasets | constructor arguments |

Extractor scores are multiples of 0.1 held as integers scaled by 10: 20, 16, 10, 8, 5 and 4, with threshold 16. `Scoring.ScoreScaled` and
`Scoring.AcceptScaled` state that the scaled rule and the source's real-valued rule agree.

## Model

| member | source | states |
|---|---|---|
| Text.Collapse | app/services/skill_taxonomy.py:263 | `re.sub(r'\s+', ' ', s)`: empty iff the input is, starts with a space iff the input starts with whitespace, never two spaces in a row |
| Text.CollapseIdempotent | app/services/skill_taxonomy.py:263 | collapsing whitespace twice is collapsing once |
| Text.StripIdempotent | app/services/skill_taxonomy.py:262 | `strip` twice is `strip` once |
| Text.StripShape | app/services/skill_taxonomy.py:262 | the stripped string is a slice of the input with no whitespace at either end, everything cut off is whitespace, and it is empty iff the input is all whitespace |
| Text.FoldIgnoresCase | app/services/skill_taxonomy.py:262-263 | the folded key of a string does not change when the string is lowercased first |
| Text.FoldIgnoresSurroundingSpace | app/services/skill_taxonomy.py:262-263 | the folded key does not change when the string is stripped first |
| Text.FoldIgnoresRunLength | app/services/skill_taxonomy.py:262-263 | the folded key does not change when whitespace runs are collapsed first |
| Text.FoldEmpty | app/services/skill_taxonomy.py:258-263 | the folded key is empty iff the string is all whitespace |
| Text.UpperIgnoresCase | app/services/rag_verifier.py:89 | upper-casing a lowercased string is upper-casing the string |
| Text.Split | app/services/skill_extractor.py:322 | `re.split` on a set of separators: at least one piece, and no piece holds a separator |
| Text.SplitJoin | app/services/resume_segmenter.py:59 | splitting, on a character, the join of pieces that do not hold it gives back the pieces |
| Text.NonBlankStripped | app/services/analyzer.py:81 | every element kept is non-empty and is the stripped form of some input piece |
| Text.NonBlankStrippedAppend | app/services/analyzer.py:81 | the comprehension keeps order and duplicates: the result for `a + b` is that for `a` followed by that for `b`, and one piece gives its stripped form when that is non-empty, else nothing |
| Text.NonBlankStrippedPieces | app/services/job_database.py:212 | the non-blank stripped pieces of a split are non-empty, carry no surrounding whitespace and hold no separator |
| Text.NonBlankStrippedKeeps | app/services/job_database.py:212 | every piece whose stripped form is not empty is kept, stripped |
| Order.SortedList | app/services/skill_extractor.py:312 | `sorted(list(s))`: strictly increasing, exactly the elements of the set, one per element |
| Order.SortedUnique | app/services/skill_extractor.py:312 | two strictly sorted lists with the same elements are equal, so the sorted output is determined by the set |
| Order.ListOfSet | app/services/job_database.py:148 | `list(set(xs))`: no duplicates, exactly the elements of the set |
| Taxonomy.LoadConsistent | app/services/skill_taxonomy.py:204-236 | `Taxonomy.Load`: whatever the dataset holds, or if it is missing or raises: every map value is a canonical name, every key is the lowercase form of its value or of an alias key, every canonical name is found under its lowercase form, and the empty string is neither a name nor a key |
| Taxonomy.Readable | app/services/skill_taxonomy.py:216-217 | the `Skills` fields of the elements before the first one on which `job.get` raises: all of them iff every element is an object |
| Taxonomy.ErrorDropsRest | app/services/skill_taxonomy.py:206-237 | an element that raises ends loading: the elements after it and the whole alias pass make no difference |
| Taxonomy.DatasetSkillLoaded | app/services/skill_taxonomy.py:216-223 | every non-blank string in a `Skills` list that the loop reaches (no element up to its own raises) is a canonical name after loading, stripped |
| Taxonomy.EntryLoaded | app/services/skill_taxonomy.py:219-222 | a non-blank string entry of one job is added to the skill set, stripped |
| Taxonomy.AddJobsSplit | app/services/skill_taxonomy.py:216 | loading the jobs of `a + b` is loading `a`, then `b` |
| Taxonomy.AliasValueLoaded | app/services/skill_taxonomy.py:229-231 | after the alias pass every alias value is in the skill set |
| Taxonomy.LoadSelfBound | app/services/skill_taxonomy.py:216-231 | when no two dataset names or alias values share a lowercase form and every alias key that lowercases like one of them has it as its value, every canonical name is bound to itself under its lowercase form after loading |
| Taxonomy.SkillsNormalizeToSelf | app/services/skill_taxonomy.py:238-269 | under those hypotheses, every canonical name that is its own folded key normalizes to itself |
| Taxonomy.AliasValueNormalizes | app/services/skill_taxonomy.py:226-269 | under those hypotheses, with a dataset the loop gets through, every alias value that is its own folded key normalizes to itself |
| Taxonomy.CaseVariantsWin | app/services/skill_taxonomy.py:219-231 | without the first hypothesis it fails: of two dataset spellings with one lowercase form the later takes the key, so the earlier, a canonical name and an alias value, normalizes to the later |
| Taxonomy.AliasShadowsName | app/services/skill_taxonomy.py:219-231 | without the second it fails: a dataset name whose lowercase form is an alias key with another value is a canonical name that normalizes to that value |
| Taxonomy.CaseVariantsExample | app/services/skill_taxonomy.py:219-231 | dataset skills "Go" then "GO" with the alias "golang" to "Go": "Go" is a canonical name bound to "GO" |
| Taxonomy.AliasShadowsNameExample | app/services/skill_taxonomy.py:219-231 | the dataset skill "JS" with the alias "js" to "JavaScript": "JS" is a canonical name bound to "JavaScript" |
| Taxonomy.AliasWins | app/services/skill_taxonomy.py:226-227 | with a coherent alias table, every alias key is bound to its own value at the end, overriding a dataset skill with the same lowercase form |
| Taxonomy.AliasKept | app/services/skill_taxonomy.py:226-231 | one alias step leaves every other binding alone |
| Taxonomy.AliasBound | app/services/skill_taxonomy.py:227 | one alias step binds its lowercase key to its value |
| Taxonomy.AddEntriesGrows | app/services/skill_taxonomy.py:219-223 | loading entries never removes a skill |
| Taxonomy.SkillTaxonomy.constructor | app/services/skill_taxonomy.py:198-236 | the two structures are those of loading the dataset: the dataset pass, then the alias pass over the built-in table unless an element raised |
| Taxonomy.SkillTaxonomy.LoadJobs | app/services/skill_taxonomy.py:216-223 | the nested loops, stopping at the first element that raises, leave the structures equal to the dataset pass over the readable elements, and report whether every element was read |
| Taxonomy.SkillTaxonomy.LoadAliases | app/services/skill_taxonomy.py:226-231 | the loop leaves the structures equal to the alias pass applied to the old state |
| Taxonomy.SkillTaxonomy.Skills | app/services/skill_taxonomy.py:238-241 | the canonical names: none is empty, and every name that is its own folded key is a known skill |
| Taxonomy.SkillTaxonomy.SkillCount | app/services/skill_taxonomy.py:243-246 | the number of canonical names |
| Taxonomy.SkillTaxonomy.Normalize | app/services/skill_taxonomy.py:248-269 | None for empty input; some iff the folded key is in the map; then the map's value under that key, which is a non-empty canonical name |
| Taxonomy.SkillTaxonomy.IsKnownSkill | app/services/skill_taxonomy.py:271-273 | true iff `normalize` gives a name, iff the folded key is in the map |
| Taxonomy.SkillTaxonomy.GetCanonical | app/services/skill_taxonomy.py:275-286 | (normalized name, true) for a known skill; (stripped input, false) otherwise; a known name is in `skills` |
| Taxonomy.NormalizeIgnoresCase | app/services/skill_taxonomy.py:262 | `normalize` does not depend on case |
| Taxonomy.NormalizeIgnoresSurroundingSpace | app/services/skill_taxonomy.py:262 | `normalize` does not depend on surrounding whitespace |
| Taxonomy.NormalizeIgnoresRunLength | app/services/skill_taxonomy.py:263 | `normalize` does not depend on the length of whitespace runs |
| Taxonomy.BlankIsUnknown | app/services/skill_taxonomy.py:258-269 | a blank skill is never known |
| Taxonomy.AliasResolves | app/services/skill_taxonomy.py:216-267 | after loading a dataset whose every element is an object, with a coherent alias table, any spelling whose folded key is an alias key normalizes to that alias value, which is a canonical skill |
| Segmenter.TrimColons | app/services/resume_segmenter.py:105 | `strip(':')`: no colon at either end, never longer |
| Segmenter.DetectHeaderMeaning | app/services/resume_segmenter.py:99-119 | `Segmenter.DetectHeader`: more than five words: never a header; a header's key is a name of its type; a line of at most five words whose key is some header name is a header; PRIMARY names win over SECONDARY, which win over TERTIARY |
| Segmenter.DetectHeaderIgnoresCase | app/services/resume_segmenter.py:105 | header detection does not depend on case |
| Segmenter.IsPrimaryLineIgnoresCase | app/services/resume_segmenter.py:121-127 | line promotion does not depend on case |
| Segmenter.ClassifyMeaning | app/services/resume_segmenter.py:66-91 | a line is blank iff its stripped form is empty; a header iff header detection accepts the stripped line; promoted iff it is no header and matches a line pattern; a header is kept iff it holds ':' |
| Segmenter.Segment | app/services/resume_segmenter.py:49-97 | the loop's dictionary is the rendering of the blocks of the scan; empty text gives an empty list for every type |
| Segmenter.ScanLine | app/services/resume_segmenter.py:73-91 | one loop body: the new dictionary, type and buffer are those of one step of the scan |
| Segmenter.ClassifyLine | app/services/resume_segmenter.py:66-89 | the tests at the head of the loop compute the classification of the line |
| Segmenter.RunTracksRoute | app/services/resume_segmenter.py:65-95 | `Segmenter.Run`: at every point the type in force is that of the last header, the held lines of each type (blocks, then buffer) are exactly the lines routed there in order, and no block is empty |
| Segmenter.SegmentConserves | app/services/resume_segmenter.py:59-97 | conservation: for every type but PRIMARY the emitted blocks, concatenated, are exactly the lines routed to it in document order; for PRIMARY the same as a bag; no emitted block is empty |
| Segmenter.BeforeFirstHeader | app/services/resume_segmenter.py:62-95 | lines before the first header go to UNKNOWN, or to PRIMARY when promoted |
| Segmenter.HeaderFlushes | app/services/resume_segmenter.py:73-84 | a header flushes the pending buffer to the previous type, switches the type, and starts the buffer with the header line iff it holds ':' |
| Segmenter.PromotedLineIsOwnBlock | app/services/resume_segmenter.py:86-89 | a promoted line becomes a PRIMARY block of its own whatever section is in force, and leaves the type, the buffer and the other types alone |
| Segmenter.PrimaryBlocksOutOfOrder | app/services/resume_segmenter.py:86-95 | PRIMARY blocks are not in document order: a promoted line is emitted before the pending PRIMARY buffer that precedes it |
| Segmenter.PrimaryLinesInOrder | app/services/resume_segmenter.py:86-95 | the lines routed to PRIMARY in the same example are in document order |
| Candidates.Mask | app/services/skill_extractor.py:467 | same length; each character kept when in the class, else a space |
| Candidates.PreprocessShape | app/services/skill_extractor.py:466-468 | `Candidates.Preprocess`: the output holds only word characters, single spaces and `. # + - /`, with no space at either end |
| Candidates.PreprocessIdempotent | app/services/skill_extractor.py:466-468 | `_preprocess` twice is `_preprocess` once |
| Candidates.TokenTexts | app/services/skill_extractor.py:373 | one text per token, in order |
| Candidates.Starts | app/services/skill_extractor.py:407 | the number of `n`-gram starts: 0, or such that the last `n`-gram ends at the last token |
| Candidates.GenerateCandidates | app/services/skill_extractor.py:370-412 | the list is single tokens, then slash compounds, then n-grams, in the source's order |
| Candidates.SingleTokenCandidates | app/services/skill_extractor.py:376-390 | step 1 computes the single-token candidates of every token in order |
| Candidates.TokenCandidates | app/services/skill_extractor.py:377-390 | the candidates of one token: its text when at least two characters long, then its slash parts |
| Candidates.SlashPartCandidates | app/services/skill_extractor.py:385-390 | the stripped slash parts of at least two characters, each with the token's span |
| Candidates.SlashPartCandidate | app/services/skill_extractor.py:388-390 | one part: kept, stripped, when it has at least two characters |
| Candidates.SlashCompounds | app/services/skill_extractor.py:392-403 | the while loop that advances by one or three computes the compound scan from 0 |
| Candidates.NGramCandidates | app/services/skill_extractor.py:405-410 | the 2-, 3- and 4-grams in the order of the loops |
| Candidates.NGramsOfSize | app/services/skill_extractor.py:407-410 | the `n`-grams from left to right, those with joined text of at least three characters |
| Candidates.SlashPartsShape | app/services/skill_extractor.py:385-390 | each slash part candidate is a stripped piece of at least two characters with span (i, i+1) |
| Candidates.SinglesShape | app/services/skill_extractor.py:376-390 | a single-token candidate comes from a token that is neither a stop word nor punctuation, with span (i, i+1) |
| Candidates.CompoundsShape | app/services/skill_extractor.py:394-401 | a compound spans three tokens, the middle one being "/", and reads "left/right" |
| Candidates.CompoundsApart | app/services/skill_extractor.py:401 | the scan resumes past each compound, so compounds never overlap |
| Candidates.NGramsBelowShape | app/services/skill_extractor.py:407-410 | an `n`-gram spans `n` tokens inside the document and its text has at least three characters |
| Candidates.CandidateSpans | app/services/skill_extractor.py:370-412 | every span satisfies start < end <= number of tokens; n-grams span 2 to 4 tokens |
| Candidates.CheckAnchoring | app/services/skill_extractor.py:447-464 | true iff some token within five of the span, outside it, has lowercased text or lemma among the anchor words |
| Candidates.AnchorIsNear | app/services/skill_extractor.py:449-451 | tokens further than five from the span do not matter |
| Scoring.MatchMeaning | app/services/skill_extractor.py:414-445 | `Scoring.Match`: a denylisted candidate never matches; the canonical table wins over the taxonomy; fuzzy lookup only from four characters; a fuzzy hit is a taxonomy skill when the lookup draws from the taxonomy's skills, as `extractOne` over `taxonomy.skills` does; an exact hit is a table value or a taxonomy skill |
| Scoring.ExactMatchIgnoresCase | app/services/skill_extractor.py:416-426 | whether a candidate matches exactly, and under which name, does not depend on its case |
| Scoring.ExactIff | app/services/skill_extractor.py:416-426 | EXACT iff not denylisted and the canonical table or the taxonomy knows the candidate |
| Scoring.ScoreScaled | app/services/skill_extractor.py:352-365 | scaled scores are ten times base x multiplier, take one of six values, reach 16 iff PRIMARY, and equal 10 iff EXACT in SECONDARY |
| Scoring.AcceptScaled | app/services/skill_extractor.py:211-219 | the integer acceptance rule agrees with the real-valued one |
| Scoring.AcceptDecision | app/services/skill_extractor.py:211-219 | a skill is kept iff its best score is at least 16, or it is 10 and it was seen at least twice |
| Scoring.ScoreOneAnchoring | app/services/skill_extractor.py:354-366 | a SECONDARY candidate scores only when anchored; in other sections a candidate scores iff it matches |
| Scoring.ProcessTextBlock | app/services/skill_extractor.py:344-368 | the scored pairs of a block are those of its preprocessed, tokenized candidates |
| Scoring.ScoreCandidates | app/services/skill_extractor.py:354-366 | the loop collects what each candidate contributes, in order |
| Scoring.ScoreCandidate | app/services/skill_extractor.py:355-366 | the loop body: match, anchoring in SECONDARY, score |
| Scoring.TallyPairs | app/services/skill_extractor.py:204-206 | the best-score and count dictionaries agree with the pairs seen so far |
| Scoring.TallySection | app/services/skill_extractor.py:200-206 | the same after the blocks of one type |
| Scoring.AcceptedSkills | app/services/skill_extractor.py:209-220 | the acceptance pass keeps exactly the skills the rule accepts |
| Scoring.ScoreSkills | app/services/skill_extractor.py:197-220 | the raw skills are exactly those accepted over all scored pairs |
| Scoring.RawSkillsMeaning | app/services/skill_extractor.py:211-220 | a skill is kept iff it was scored and its count and best score pass the rule |
| Scoring.MaxScoreBounds | app/services/skill_extractor.py:205 | a skill's best score is at least each of its scores |
| Scoring.MaxScoreAtMost | app/services/skill_extractor.py:205 | the best score is at most any bound all its scores respect |
| Scoring.PrimaryExactKept | app/services/skill_extractor.py:211-220 | one EXACT hit in a PRIMARY block keeps a skill |
| Scoring.LowScoresNeverKept | app/services/skill_extractor.py:211-220 | a skill scored only in TERTIARY/UNKNOWN blocks, or only by fuzzy hits in SECONDARY blocks, is never kept |
| Scoring.SecondaryExactNeedsRepeat | app/services/skill_extractor.py:211-220 | a skill whose best is an EXACT SECONDARY hit is kept iff it was seen at least twice |
| PostProcess.ExpandKeeps | app/services/skill_extractor.py:238-261 | a skill without ", ", and without '/' unless known, is kept as it is |
| PostProcess.ExpandKnown | app/services/skill_extractor.py:238-261 | everything a skill expands to is that skill or a taxonomy skill |
| PostProcess.ExpandPartsKnown | app/services/skill_extractor.py:242-259 | a split skill yields only taxonomy skills |
| PostProcess.ExpandSkills | app/services/skill_extractor.py:236-262 | the loop computes the union of the expansions |
| PostProcess.ExpandSkill | app/services/skill_extractor.py:239-261 | one skill's expansion |
| PostProcess.ExpandSplit | app/services/skill_extractor.py:242-259 | the parts' contributions |
| PostProcess.ExpandOnePart | app/services/skill_extractor.py:243-249 | one part: its taxonomy name when it has at least two characters and is known |
| PostProcess.Dedup | app/services/skill_extractor.py:263-270 | one cased variant per lowercase form, all from the input, losing no lowercase form |
| PostProcess.DedupStep | app/services/skill_extractor.py:266-270 | one loop body keeps the invariant relating `seen_lower` and `deduped` |
| PostProcess.DedupKeepsForms | app/services/skill_extractor.py:263-270 | deduplication loses no lowercase form and adds none |
| PostProcess.RemoveAbstractions | app/services/skill_extractor.py:272-285 | computes `PostProcess.WithoutAbstractions`, which removes exactly the entries whose lowercase form is a rule's generic term while one of its specifics is present, and nothing else |
| PostProcess.WithoutAbstractionsIdempotent | app/services/skill_extractor.py:272-285 | a second pass removes nothing more |
| PostProcess.SplitCompositeShape | app/services/skill_extractor.py:314-323 | `PostProcess.SplitComposite`: for a skill the canonical table does not know, every part is non-blank, stripped, and holds none of `/ \| , &` |
| PostProcess.SplitCompositePlain | app/services/skill_extractor.py:314-323 | a table key stays whole; a non-blank skill without separators stays whole, stripped |
| PostProcess.NonBlankPartsFrom | app/services/skill_extractor.py:323 | each part kept is the non-blank stripped form of a piece |
| PostProcess.ToCanonicalIgnoresCase | app/services/skill_extractor.py:325-342 | the canonical name does not depend on case |
| PostProcess.ToCanonicalNames | app/services/skill_extractor.py:325-342 | `PostProcess.ToCanonical`: a canonical name is a table value or a taxonomy skill |
| PostProcess.NormalizedNames | app/services/skill_extractor.py:295-309 | every name produced is a table value or a taxonomy skill |
| PostProcess.CanonicalizeParts | app/services/skill_extractor.py:301-309 | the inner loop computes the parts' canonical names |
| PostProcess.CanonicalizePart | app/services/skill_extractor.py:302-309 | one part: nothing under two characters, else its canonical name if any |
| PostProcess.NormalizeAndDeduplicate | app/services/skill_extractor.py:287-312 | strictly sorted, and exactly the canonical names of all parts |
| PostProcess.PostProcessSkills | app/services/skill_extractor.py:228-285 | the chain expand, dedup, remove abstractions, normalize; every result is a table value or a taxonomy skill |
| Extractor.SkillExtractor.constructor | app/services/skill_extractor.py:172-177 | keeps the taxonomy and the class tables |
| Extractor.SkillExtractor.Extract | app/services/skill_extractor.py:186-226 | [] for empty or blank text; otherwise the post-processed skills accepted over the segmented, scored blocks; strictly sorted; each a table value or a taxonomy skill |
| Extractor.NothingAcceptedNothingReported | app/services/skill_extractor.py:223 | with no accepted skill the result is [] |
| JobDatabase.JobDatabaseService.constructor | app/services/job_database.py:13-16 | keeps the loaded rows, or None |
| JobDatabase.JobDatabaseService.GetAvailableRoles | app/services/job_database.py:45-50 | [] when unavailable; otherwise strictly sorted and exactly the titles |
| JobDatabase.JobDatabaseService.GetSkillsForRole | app/services/job_database.py:52-150 | [] when unavailable or no title contains the role; no duplicates; exactly the skills of the chosen rows |
| JobDatabase.JobDatabaseService.SearchSimilarRoles | app/services/job_database.py:218-226 | [] when unavailable; otherwise the close matches among the distinct titles |
| JobDatabase.RoleRows | app/services/job_database.py:72-73 | exactly the rows whose title contains the stripped role, ignoring case |
| JobDatabase.LevelRows | app/services/job_database.py:105-110 | exactly the rows whose level cell contains some search term |
| JobDatabase.VariationsFirstKey | app/services/job_database.py:96-102 | at most one key contributes: none if no key's variations occur, else exactly the first key whose variations occur |
| JobDatabase.SearchTermsOf | app/services/job_database.py:96-102 | the loop with its `break` computes the stripped level followed by that key's variations |
| JobDatabase.ChosenMeaning | app/services/job_database.py:71-122 | `JobDatabase.Chosen`: chosen rows match the role; with a level that some role row meets, they are the rows meeting both; otherwise all role rows |
| JobDatabase.FallbackToRoleRows | app/services/job_database.py:110-118 | when no role row meets the level, all role rows are used |
| JobDatabase.StrippedParts | app/services/job_database.py:138 | one stripped part per piece, empty ones included |
| JobDatabase.CollectSkills | app/services/job_database.py:128-145 | the loop concatenates every chosen row's cell skills |
| JobDatabase.CellSkillsOf | app/services/job_database.py:130-145 | one cell: json for '[' strings, stripped ';' pieces otherwise, a list as it is, nothing else |
| JobDatabase.UniqueTitles | app/services/job_database.py:224 | no duplicates, exactly the titles |
| JobDatabase.UniqueTitlesFirstSeen | app/services/job_database.py:224 | `unique()` order: the titles come in the order of their first appearance in the rows |
| JobDatabase.ParseField | app/services/job_database.py:200-216 | a list unchanged; other types []; a plain string yields only non-empty items |
| JobDatabase.ParseFieldPieces | app/services/job_database.py:210-212 | from a plain string every item is non-empty, stripped and free of ';' |
| JobDatabase.ParseFieldKeepsPieces | app/services/job_database.py:210-212 | every piece with a non-blank stripped form is returned, stripped |
| RagVerifier.FallbackDecision | app/services/rag_verifier.py:114-115 | COVERED iff score >= 0.5, MISSING iff score < 0.5 |
| RagVerifier.FallbackConfidence | app/services/rag_verifier.py:118-119 | in [0, 1]; 1 iff the score is at most 0 or at least 1; 0 iff the score is 0.5 |
| RagVerifier.FallbackConfidenceGrows | app/services/rag_verifier.py:118-119 | the further from 0.5, the more confident |
| RagVerifier.Fallback | app/services/rag_verifier.py:121-126 | exactly decision, confidence, reasoning and evidence, evidence None |
| RagVerifier.Verification | app/services/rag_verifier.py:37-103 | the decision is always COVERED, MISSING or PARTIAL, with confidence and reasoning present; no client, a failed reply or an unusable reply give the fallback |
| RagVerifier.ReplyPassedThrough | app/services/rag_verifier.py:88-103 | a usable reply keeps its keys plus confidence and reasoning, with the decision upper-cased, defaults 0.7 and "AI verification completed", other fields untouched |
| RagVerifier.BadDecisionFallsBack | app/services/rag_verifier.py:84-92 | no decision, or one outside the three after upper-casing, gives the fallback |
| RagVerifier.DecisionIgnoresCase | app/services/rag_verifier.py:89 | the decision's case does not matter |
| RagVerifier.VerifySkill | app/services/rag_verifier.py:37-110 | the in-place updates compute the verification of the reply |
| RagVerifier.BatchVerify | app/services/rag_verifier.py:139-144 | one result per zipped triple, in order, as many as the shortest input |
| Analyzer.TierOf | app/services/analyzer.py:142-165 | clear match iff >= 0.7; clear miss iff <= 0.3; borderline iff strictly between |
| Analyzer.LongLinesMembers | app/services/analyzer.py:88 | `Analyzer.LongLines`: an element is in the result iff it is a line longer than ten characters |
| Analyzer.LongLinesAppend | app/services/analyzer.py:88 | `Analyzer.LongLines` keeps order and duplicates: the result for `a + b` is that for `a` followed by that for `b`, and one line is kept iff it is longer than ten characters |
| Analyzer.ResumeChunksAreLines | app/services/analyzer.py:81 | `Analyzer.ResumeChunks`: each chunk is a non-empty stripped piece of one line; every non-blank line gives its stripped chunk; order and duplicates as in Text.NonBlankStrippedAppend |
| Analyzer.JdChunksFromDescription | app/services/analyzer.py:84-88 | `Analyzer.JdChunks`: without a skills list the chunks are the description's lines longer than ten characters, in order and with duplicates (`LongLines` of the lines), or none without a description |
| Analyzer.FirstPass | app/services/analyzer.py:137-165 | the three lists together are as long as the requirements |
| Analyzer.FirstPassPartition | app/services/analyzer.py:137-165 | as a bag, covered + missing + borderline names are the requirements |
| Analyzer.FirstPassTiers | app/services/analyzer.py:142-165 | covered from 0.7 with the matched text, missing up to 0.3, borderline strictly between, all tagged threshold |
| Analyzer.FirstPassAppend | app/services/analyzer.py:137-165 | the first loop appends in requirement order: the lists for `a + b` are those for `a` followed by those for `b`, and one requirement gives one entry in the list of its tier |
| Analyzer.NoHitIsClearMiss | app/services/analyzer.py:139-161 | a requirement without a search hit is a clear miss with score 0 |
| Analyzer.SecondPass | app/services/analyzer.py:171-186 | the two lists together are as long as the borderline cases |
| Analyzer.SecondPassPartition | app/services/analyzer.py:171-186 | as a bag, the two lists' names are the borderline skills |
| Analyzer.SecondPassDecisions | app/services/analyzer.py:171-186 | covered iff the verifier says COVERED, with a match; missing otherwise; all tagged rag with the case's score |
| Analyzer.SecondPassAppend | app/services/analyzer.py:171-186 | the second loop appends in the order of the borderline cases: the lists for `a + b` are those for `a` followed by those for `b`, and one case gives one entry, covered or missing |
| Analyzer.WithoutClientCoveredFromHalf | app/services/analyzer.py:172 | without an LLM client a borderline case is covered iff its score is at least 0.5 |
| Analyzer.CountThresholdAppend | app/services/analyzer.py:197-198 | the threshold count of a concatenation is the sum |
| Analyzer.CountThresholdAll | app/services/analyzer.py:197-198 | every first-pass entry is counted as a threshold decision |
| Analyzer.CountThresholdNone | app/services/analyzer.py:198-199 | no second-pass entry is counted as a threshold decision |
| Analyzer.PercentBounds | app/services/analyzer.py:200-207 | a part of a total is between 0 and 100 percent, 0 without a total, 100 when whole |
| Analyzer.AnalysisPartition | app/services/analyzer.py:137-194 | `Analyzer.AnalysisOf`: every requirement, duplicates included, is reported exactly once, covered or missing, and the two lists sum to `total_skills` |
| Analyzer.StatsAddUp | app/services/analyzer.py:195-199 | `clear_matches` and `clear_misses` are the first-pass lists' sizes, and with `ai_verified` they sum to `total_skills` |
| Analyzer.PercentagesBounded | app/services/analyzer.py:200-207 | both percentages lie in [0, 100] and are 0 without requirements |
| Analyzer.FirstFiveIsHead | app/services/analyzer.py:190 | `s[:5]` is a prefix of at most five elements, all of `s` when short |
| Analyzer.GapAnalyzer.constructor | app/services/analyzer.py:19-24 | keeps the database and whether the generator has a client |
| Analyzer.GapAnalyzer.GetRequiredSkills | app/services/analyzer.py:32-61 | with the database available and at least ten skills: min(30, n) distinct skills of the role; otherwise the generator's list |
| Analyzer.GapAnalyzer.Analyze | app/services/analyzer.py:64-212 | the result is the model's analysis of the chunks, the search hits and the verifier |
| Analyzer.Classify | app/services/analyzer.py:137-165 | the first loop computes the first pass |
| Analyzer.VerifyBorderline | app/services/analyzer.py:168-186 | the second loop appends the second pass to the first pass's lists |
| Analyzer.VerifyCase | app/services/analyzer.py:172-186 | one borderline case: covered iff the decision is COVERED, and its entry |
| GapLists.ResumeLookupKeys | app/main.py:143 | a key is in the lookup iff some resume skill folds to it |
| GapLists.ResumeLookupLastWins | app/main.py:143 | a key's value is the last resume skill with that key |
| GapLists.ExactMatchHasKey | app/main.py:143-156 | the reported resume skill has the target's key |
| GapLists.ExactPass | app/main.py:149-159 | covered and pending targets together are as many as the targets |
| GapLists.ExactPassMeaning | app/main.py:149-159 | `GapLists.ExactPass`: exact covers carry the dictionary's value for their key; a target is pending iff its key is absent |
| GapLists.ExactIffSharedKey | app/main.py:149-159 | a target goes on to the semantic phase iff no resume skill shares its key |
| GapLists.ExactCoversShareKey | app/main.py:149-159 | an exact cover is matched with a resume skill of the same key |
| GapLists.ExactPassPartition | app/main.py:149-159 | as a bag, exact covers plus pending targets are the targets |
| GapLists.ExactPassAppend | app/main.py:149-159 | the first loop appends in target order: the covers and pending targets for `a + b` are those for `a` followed by those for `b`, and one target gives its exact cover when its key is in the dictionary, else it is pending |
| GapLists.ArgMax | app/main.py:182-185 | `np.argmax`: the first index of the greatest similarity |
| GapLists.GapTier | app/main.py:187-204 | semantic iff >= 0.7, borderline iff in [0.3, 0.7), missing iff < 0.3 |
| GapLists.TieringsDisagreeOnlyAtPointThree | app/main.py:187-204 | the endpoint's tiering and the analyzer's (app/services/analyzer.py, lines 153-161) differ only at 0.3, borderline here and a clear miss there |
| GapLists.SemanticPass | app/main.py:174-204 | the three lists together are as many as the pending targets |
| GapLists.SemanticPassTiers | app/main.py:174-204 | each semantic cover has its best match at 0.7 or more; each borderline case at 0.3 up to 0.7; each miss below 0.3 |
| GapLists.SemanticPassPartition | app/main.py:174-204 | as a bag, covers, misses and borderline cases are the pending targets |
| GapLists.SemanticPassAppend | app/main.py:174-204 | the second loop appends in the order of the pending targets: the three lists for `a + b` are those for `a` followed by those for `b`, and one target gives one entry, with its first best match, in the list of its tier |
| GapLists.RagPass | app/main.py:213-234 | the two lists together are as many as the borderline cases |
| GapLists.RagPassDecisions | app/main.py:213-234 | a borderline target is covered, tagged rag_verified, iff the verifier says COVERED |
| GapLists.RagPassPartition | app/main.py:213-234 | as a bag, the two lists are the borderline targets |
| GapLists.RagPassAppend | app/main.py:210-234 | the third loop appends in the order of the borderline cases: the lists for `a + b` are those for `a` followed by those for `b`, and one case is covered iff the verifier says COVERED, else missing |
| GapLists.GapPartition | app/main.py:149-242 | `GapLists.GapListsOf`: every target, duplicates included, is reported exactly once, covered or missing, so the two lists sum to the targets |
| GapLists.GapStats | app/main.py:161-258 | exact, semantic and verified counts are the phases' sizes, they sum to the number covered, `missing` is the number missing, the roadmap gets the first five missing names |
| GapLists.KindCounts | app/main.py:255-258 | counting the exact, semantic and verified matches of the combined covered list gives each phase's size |
| GapLists.GapPercentage | app/main.py:241-242 | the percentage lies in [0, 100], 0 without targets, 100 when every target is covered |
| GapLists.EmptyResumeFails | app/main.py:165-185 | with an empty resume the request fails iff there are targets |
| GapLists.AnalyzeGapLists | app/main.py:128-260 | the report is the model's result for the target skills; with the database available and at least ten skills for the role the targets are min(30, n) distinct skills of the role, otherwise the generator's list |
| GapLists.MatchLists | app/main.py:143-260 | the three loops compute the model's result, or None |
| GapLists.ExactPhase | app/main.py:149-159 | the first loop computes the exact pass |
| GapLists.SemanticPhase | app/main.py:174-204 | the second loop computes the semantic pass |
| GapLists.RagPhase | app/main.py:213-234 | the third loop computes the verifier pass |
| Parser.CollapseNewlines | app/services/parser.py:22 | never longer, empty iff the input is, last character kept, no newline follows a newline |
| Parser.RemoveDisallowed | app/services/parser.py:24 | only allowed characters remain |
| Parser.CleanTextShape | app/services/parser.py:19-25 | `Parser.CleanText`: only word characters, whitespace and `. , ; : ( ) -`; no whitespace at either end; a subsequence of the input |
| Parser.CleanTextOfClean | app/services/parser.py:19-25 | allowed text with no repeated newline and no surrounding whitespace is returned unchanged |
| Parser.CleanTextNotIdempotent | app/services/parser.py:22-24 | `clean_text("a\n*\nb")` is "a\n\nb", which holds a repeated newline, and cleaning it again gives "a\nb" |
| Parser.CleanTextFixedShape | app/services/parser.py:19-25 | with the substitutions swapped, the output keeps the promises above, has no repeated newline, and cleaning twice is cleaning once |

## Left out

- PDF reading (`extract_text_from_pdf`), loading of JSON or CSV files, FastAPI routes, HTTP errors and logging: I/O. The loaded data are constructor arguments.
- spaCy tokenisation, stop words and lemmas: a foreign library. Tokens are inputs.
- The rapidfuzz lookups in `_match` and `search_similar`, and `difflib.get_close_matches`: foreign libraries. They are function parameters, and `search_similar`/`get_skill_suggestions` are not modelled.
- Embeddings, cosine similarity, Qdrant upserts and search: foreign services. Scores and hits are inputs, and setting up the collection in `analyze` is not modelled.
- The LLM prompt and call, and the generator's `generate_skills_list` and `generate_roadmap`: a remote service. The reply and the skill list are inputs, and the roadmap is replaced by the names it is asked about.
- `json.loads` on '['-strings of a skills cell: a foreign parser, modelled as a parameter.
- `get_role_insights`: the job database's statistics endpoint, outside the matching logic.
- JobDatabase.LevelRows: the level filter joins the search terms into a regular expression; the model reads it as a plain substring search for any term, which is what it does for the built-in variations. A user level holding regular-expression syntax is not modelled.
- Taxonomy.SkillTaxonomy.constructor: the dataset is the sequence of elements the loading loop iterates. A top-level JSON object contributes its keys, which raise like any non-object element. A top-level value that cannot be iterated (a number, `null`) is modelled as a dataset whose first element raises. A file that is missing or cannot be parsed is `None`.
- pandas missing values (`na=False`) and non-string title or level cells: titles and levels are strings in the model.
- Python's Unicode `\w`, `\s` and case mapping: the model uses ASCII letters, digits and `_`, the ASCII whitespace Python recognises (space, \t, \n, \v, \f, \r and U+001C to U+001F) and ASCII case folding. Non-ASCII whitespace such as U+0085 and U+00A0 is not whitespace in the model.
- Rounding of percentages and confidences, the threshold confidence formulas of `analyze`, and the reasoning texts: floating-point presentation. The percentages are exact reals.
- Set iteration order: which cased variant survives deduplication is left unspecified, as is the order of `list(set(...))` in `get_skills_for_role`.
- GapLists.AnalyzeGapLists: states its database-first targets as Analyzer.GapAnalyzer.GetRequiredSkills does, for the reason on the next line.
- Analyzer.GapAnalyzer.GetRequiredSkills: states that the result has min(30, n) distinct skills of the role, not that it is the first 30 of the list `get_skills_for_role` returned, because that list's order comes from set iteration.
- GapLists.GapListsOf: the exception raised in the semantic phase when the resume list is empty (targets are left for it and there is nothing to compare them with), which becomes HTTP 500, is modelled as no report (None); which exception is raised is not modelled.
- Taxonomy.AliasResolves: assumes that the alias table is coherent (no value is the lowercase form of another key with a different value); this is not proved for the built-in table, whose size puts that out of reach of this model. The concrete lookups "js" to "JavaScript" and "k8s" to "Kubernetes" are not proved either.
- Taxonomy.SkillsNormalizeToSelf: a canonical name, or an alias value, normalizes to itself only under the hypotheses of Taxonomy.LoadSelfBound; Taxonomy.CaseVariantsExample and Taxonomy.AliasShadowsNameExample show datasets where it does not. Whether the built-in alias table and a given dataset meet the hypotheses is not proved.
- Taxonomy.SkillTaxonomy.Skills: a Dafny set is a value, so the copy made by the `skills` property needs no model.
- Extractor.SkillExtractor.Extract: `extract(None)` is not modelled, because Dafny strings cannot be None. Building the default taxonomy when none is given is not modelled either.
- The dead branches of `_post_process` and `_to_canonical` that fire only when `is_known_skill` holds without `normalize` succeeding are modelled as written. They never add anything.

## Findings

| source | as written | input that shows it | evidently intended | confidence | as-written member | corrected member |
|---|---|---|---|---|---|---|
| app/services/parser.py:22-24 | newline runs are collapsed before the disallowed characters are removed, so removing a character between two newlines recreates a repeated newline | "a\n*\nb" gives "a\n\nb", and cleaning that again gives "a\nb" | no repeated newline in the output, and `clean_text` idempotent | medium, not executed | Parser.CleanTextNotIdempotent | Parser.CleanTextFixedShape |
