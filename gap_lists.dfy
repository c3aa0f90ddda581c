/** The matching inside `analyze_gap_lists` (app/main.py, lines 128-260): exact matches on
    the case- and space-insensitive key first, then a semantic tier on the best embedding
    similarity, then the verifier for the borderline cases. The embedder is not part of
    this model: `sim(target, skill)` is the cosine similarity of the two embeddings. */
module GapLists {
  import opened Text
  import opened Wrappers
  import opened RagVerifier
  import opened Analyzer
  import opened Order

  /** `match_type` of a covered entry. */
  datatype MatchKind = Exact | Semantic | RagVerified

  /** A covered entry; confidence and reasoning are not part of this model. */
  datatype Covered = Covered(skill: string, kind: MatchKind, matchedWith: string)

  datatype MatchingStats = MatchingStats(exactMatches: nat, semanticMatches: int, ragVerified: nat, missing: nat)

  /** The returned dictionary, with the roadmap replaced by the names it is asked about. */
  datatype GapReport = GapReport(matchPercentage: real, covered: seq<Covered>, missing: seq<string>,
                                 targets: seq<string>, roadmapInput: seq<string>, stats: MatchingStats)

  /** Embedding similarity of a target skill and a resume skill. */
  type Similarity = (string, string) -> real

  /** `s.lower().strip()`. */
  function Key(s: string): string
  {
    Strip(Lower(s))
  }

  // ---------------------------------------------------------------------------
  // The resume dictionary (line 143), as an insertion-ordered list of entries

  /** `d[k] = v` on an insertion-ordered dictionary: an existing key keeps its place. */
  function Put(d: seq<(string, string)>, k: string, v: string): (r: seq<(string, string)>)
    ensures |r| >= |d| && r != []
  {
    if d == [] then [(k, v)]
    else if d[0].0 == k then [(k, v)] + d[1..]
    else [d[0]] + Put(d[1..], k, v)
  }

  function Get(d: seq<(string, string)>, k: string): Option<string>
  {
    if d == [] then None else if d[0].0 == k then Some(d[0].1) else Get(d[1..], k)
  }

  function Values(d: seq<(string, string)>): (r: seq<string>)
    ensures |r| == |d| && forall i :: 0 <= i < |d| ==> r[i] == d[i].1
  {
    if d == [] then [] else [d[0].1] + Values(d[1..])
  }

  /** `resume_lower = {s.lower().strip(): s for s in resume_skills}`. */
  function ResumeLookup(resume: seq<string>): (d: seq<(string, string)>)
    ensures resume != [] ==> d != []
  {
    if resume == [] then [] else Put(ResumeLookup(resume[..|resume| - 1]), Key(resume[|resume| - 1]), resume[|resume| - 1])
  }

  lemma {:induction false} GetPut(d: seq<(string, string)>, k: string, v: string, j: string)
    ensures Get(Put(d, k, v), j) == if j == k then Some(v) else Get(d, j)
  {
    if d != [] && d[0].0 != k {
      GetPut(d[1..], k, v, j);
    }
  }

  lemma {:induction false} GetIsEntry(d: seq<(string, string)>, k: string)
    requires Get(d, k).Some?
    ensures exists i :: 0 <= i < |d| && d[i] == (k, Get(d, k).value)
  {
    if d[0].0 != k {
      GetIsEntry(d[1..], k);
      var i :| 0 <= i < |d[1..]| && d[1..][i] == (k, Get(d, k).value);
      assert d[i + 1] == d[1..][i];
    }
  }

  /** A key is in the dictionary exactly when some resume skill has it. */
  lemma ResumeLookupKeys(resume: seq<string>, k: string)
    ensures Get(ResumeLookup(resume), k).Some? <==> exists i :: 0 <= i < |resume| && Key(resume[i]) == k
  {
    ResumeLookupHasKeys(resume, k);
    var ks := Keys(resume);
    if k in ks {
      var i :| 0 <= i < |ks| && ks[i] == k;
      assert Key(resume[i]) == k;
    }
  }

  /** The keys of the resume skills, in order. */
  function Keys(resume: seq<string>): (r: seq<string>)
    ensures |r| == |resume| && forall i :: 0 <= i < |resume| ==> r[i] == Key(resume[i])
  {
    if resume == [] then [] else Keys(resume[..|resume| - 1]) + [Key(resume[|resume| - 1])]
  }

  lemma {:induction false} ResumeLookupHasKeys(resume: seq<string>, k: string)
    ensures Get(ResumeLookup(resume), k).Some? <==> k in Keys(resume)
  {
    if resume != [] {
      var pre, last := resume[..|resume| - 1], resume[|resume| - 1];
      ResumeLookupHasKeys(pre, k);
      GetPut(ResumeLookup(pre), Key(last), last, k);
      assert Keys(resume) == Keys(pre) + [Key(last)];
    }
  }

  /** The value of a key is the last resume skill with that key: a later skill with the
      same key wins. */
  lemma {:induction false} ResumeLookupLastWins(resume: seq<string>, k: string)
    requires Get(ResumeLookup(resume), k).Some?
    ensures exists i :: 0 <= i < |resume| && LastWithKey(resume, i, k) && resume[i] == Get(ResumeLookup(resume), k).value
  {
    var pre, last := resume[..|resume| - 1], resume[|resume| - 1];
    var d := ResumeLookup(pre);
    assert ResumeLookup(resume) == Put(d, Key(last), last);
    GetPut(d, Key(last), last, k);
    if Key(last) == k {
      assert LastWithKey(resume, |resume| - 1, k);
    } else {
      ResumeLookupLastWins(pre, k);
      var i :| 0 <= i < |pre| && LastWithKey(pre, i, k) && pre[i] == Get(d, k).value;
      LastWithKeyExtends(pre, last, i, k);
      assert resume == pre + [last];
    }
  }

  /** `resume[i]` has key `k` and no later skill does. */
  predicate LastWithKey(resume: seq<string>, i: nat, k: string)
    requires i < |resume|
  {
    Key(resume[i]) == k && forall j :: i < j < |resume| ==> Key(resume[j]) != k
  }

  lemma LastWithKeyExtends(pre: seq<string>, last: string, i: nat, k: string)
    requires i < |pre| && LastWithKey(pre, i, k) && Key(last) != k
    ensures LastWithKey(pre + [last], i, k) && (pre + [last])[i] == pre[i]
  {
  }

  /** The value an exact match reports has the target's key. */
  lemma ExactMatchHasKey(resume: seq<string>, k: string)
    requires Get(ResumeLookup(resume), k).Some?
    ensures Key(Get(ResumeLookup(resume), k).value) == k
  {
    ResumeLookupLastWins(resume, k);
  }

  // ---------------------------------------------------------------------------
  // Phase 1: exact matching (lines 149-159)

  /** The covered entries and the targets left for the semantic phase. */
  function ExactPass(targets: seq<string>, d: seq<(string, string)>): (p: (seq<Covered>, seq<string>))
    ensures |p.0| + |p.1| == |targets|
  {
    if targets == [] then ([], []) else
      var p := ExactPass(targets[..|targets| - 1], d);
      var t := targets[|targets| - 1];
      var hit := Get(d, Key(t));
      if hit.Some? then (p.0 + [Covered(t, Exact, hit.value)], p.1) else (p.0, p.1 + [t])
  }

  /** Exact cover happens exactly when the target's key is in the dictionary, and reports
      that key's value; every other target goes to the semantic phase. */
  lemma {:induction false} ExactPassMeaning(targets: seq<string>, d: seq<(string, string)>)
    ensures forall c :: c in ExactPass(targets, d).0 ==>
      c.kind == Exact && c.skill in targets && Get(d, Key(c.skill)) == Some(c.matchedWith)
    ensures forall t :: t in ExactPass(targets, d).1 <==> t in targets && Get(d, Key(t)).None?
  {
    if targets != [] {
      ExactPassMeaning(targets[..|targets| - 1], d);
      SnocSplit(targets);
    }
  }

  /** Both lists follow target order, duplicates included: the pass over a concatenation
      is the two passes' lists concatenated, and one target is covered with its lookup
      value when its key is present and left for the semantic phase otherwise. */
  lemma {:induction false} ExactPassAppend(a: seq<string>, b: seq<string>, d: seq<(string, string)>)
    ensures ExactPass(a + b, d) == (ExactPass(a, d).0 + ExactPass(b, d).0, ExactPass(a, d).1 + ExactPass(b, d).1)
    ensures |b| == 1 ==>
      ExactPass(b, d) == if Get(d, Key(b[0])).Some? then ([Covered(b[0], Exact, Get(d, Key(b[0])).value)], []) else ([], [b[0]])
  {
    if b == [] {
      assert a + b == a;
      var pa := ExactPass(a, d);
      assert pa.0 + [] == pa.0 && pa.1 + [] == pa.1;
    } else {
      var b0, t := b[..|b| - 1], b[|b| - 1];
      assert a + b == (a + b0) + [t] && b == b0 + [t];
      ExactPassSnoc(a + b0, t, d);
      ExactPassSnoc(b0, t, d);
      ExactPassAppend(a, b0, d);
      var pa, pb := ExactPass(a, d), ExactPass(b0, d);
      var hit := Get(d, Key(t));
      if hit.Some? {
        var c := Covered(t, Exact, hit.value);
        assert (pa.0 + pb.0) + [c] == pa.0 + (pb.0 + [c]);
        assert b0 == [] ==> pb.0 + [c] == [c];
      } else {
        assert (pa.1 + pb.1) + [t] == pa.1 + (pb.1 + [t]);
        assert b0 == [] ==> pb.1 + [t] == [t];
      }
    }
  }

  lemma ExactPassSnoc(s: seq<string>, t: string, d: seq<(string, string)>)
    ensures var p, hit := ExactPass(s, d), Get(d, Key(t));
      ExactPass(s + [t], d) == if hit.Some? then (p.0 + [Covered(t, Exact, hit.value)], p.1) else (p.0, p.1 + [t])
  {
    assert (s + [t])[..|s|] == s;
  }

  /** A target goes on to the semantic phase exactly when no resume skill shares its key. */
  lemma ExactIffSharedKey(resume: seq<string>, targets: seq<string>, t: string)
    requires t in targets
    ensures t in ExactPass(targets, ResumeLookup(resume)).1 <==> forall i :: 0 <= i < |resume| ==> Key(resume[i]) != Key(t)
  {
    ExactPassMeaning(targets, ResumeLookup(resume));
    ResumeLookupKeys(resume, Key(t));
  }

  /** An exact cover is matched with a resume skill of the same key. */
  lemma ExactCoversShareKey(resume: seq<string>, targets: seq<string>)
    ensures forall c :: c in ExactPass(targets, ResumeLookup(resume)).0 ==>
      c.matchedWith in resume && Key(c.matchedWith) == Key(c.skill)
  {
    ExactPassMeaning(targets, ResumeLookup(resume));
    forall c | c in ExactPass(targets, ResumeLookup(resume)).0
      ensures c.matchedWith in resume && Key(c.matchedWith) == Key(c.skill)
    {
      ResumeLookupLastWins(resume, Key(c.skill));
    }
  }

  // ---------------------------------------------------------------------------
  // Phase 2: semantic tiering (lines 174-204)

  /** `np.argmax`: the first index of the greatest similarity. */
  function ArgMax(values: seq<string>, target: string, sim: Similarity): (i: nat)
    requires values != []
    ensures i < |values|
    ensures forall j :: 0 <= j < |values| ==> sim(target, values[j]) <= sim(target, values[i])
    ensures forall j :: 0 <= j < i ==> sim(target, values[j]) < sim(target, values[i])
  {
    if |values| == 1 then 0 else
      var best := ArgMax(values[..|values| - 1], target, sim);
      if sim(target, values[|values| - 1]) > sim(target, values[best]) then |values| - 1 else best
  }

  /** The tiers of lines 187-204: semantic from 0.7 up, borderline from 0.3 up, missing
      below 0.3. */
  function GapTier(score: real): (t: Tier)
    ensures t == ClearMatch <==> score >= 0.7
    ensures t == Borderline <==> 0.3 <= score < 0.7
    ensures t == ClearMiss <==> score < 0.3
  {
    if score >= 0.7 then ClearMatch else if score >= 0.3 then Borderline else ClearMiss
  }

  /** The two tierings of the project disagree at one score only: 0.3 is borderline here
      and a clear miss in `GapAnalyzer.analyze`. */
  lemma TieringsDisagreeOnlyAtPointThree(score: real)
    ensures GapTier(score) != TierOf(score) <==> score == 0.3
    ensures score == 0.3 ==> GapTier(score) == Borderline && TierOf(score) == ClearMiss
  {
  }

  /** The three outcomes of the semantic loop. */
  datatype SemanticOutcome = SemanticOutcome(covered: seq<Covered>, missing: seq<string>,
                                             borderline: seq<(string, string, real)>)

  function SemanticPass(needs: seq<string>, values: seq<string>, sim: Similarity): (p: SemanticOutcome)
    requires values != []
    ensures |p.covered| + |p.missing| + |p.borderline| == |needs|
  {
    if needs == [] then SemanticOutcome([], [], [])
    else SemanticStep(SemanticPass(needs[..|needs| - 1], values, sim), needs[|needs| - 1], values, sim)
  }

  /** One iteration: the target goes, with its best resume skill, to the list of its tier. */
  function SemanticStep(p: SemanticOutcome, t: string, values: seq<string>, sim: Similarity): (q: SemanticOutcome)
    requires values != []
    ensures |q.covered| + |q.missing| + |q.borderline| == |p.covered| + |p.missing| + |p.borderline| + 1
  {
    var best := values[ArgMax(values, t, sim)];
    var score := sim(t, best);
    match GapTier(score)
    case ClearMatch => p.(covered := p.covered + [Covered(t, Semantic, best)])
    case Borderline => p.(borderline := p.borderline + [(t, best, score)])
    case ClearMiss => p.(missing := p.missing + [t])
  }

  /** The lists of two outcomes, concatenated. */
  function Combine(p: SemanticOutcome, q: SemanticOutcome): SemanticOutcome
  {
    SemanticOutcome(p.covered + q.covered, p.missing + q.missing, p.borderline + q.borderline)
  }

  /** The three lists follow the order of the pending targets, duplicates included: the
      pass over a concatenation is the two passes' lists concatenated, and one target goes,
      with its best resume skill, to the list its tier names. */
  lemma {:induction false} SemanticPassAppend(a: seq<string>, b: seq<string>, values: seq<string>, sim: Similarity)
    requires values != []
    ensures SemanticPass(a + b, values, sim) == Combine(SemanticPass(a, values, sim), SemanticPass(b, values, sim))
    ensures |b| == 1 ==>
      var t := b[0];
      var best := values[ArgMax(values, t, sim)];
      SemanticPass(b, values, sim) ==
        match GapTier(sim(t, best))
        case ClearMatch => SemanticOutcome([Covered(t, Semantic, best)], [], [])
        case Borderline => SemanticOutcome([], [], [(t, best, sim(t, best))])
        case ClearMiss => SemanticOutcome([], [t], [])
  {
    if b == [] {
      assert a + b == a;
      var pa := SemanticPass(a, values, sim);
      assert pa.covered + [] == pa.covered && pa.missing + [] == pa.missing && pa.borderline + [] == pa.borderline;
    } else {
      var b0, t := b[..|b| - 1], b[|b| - 1];
      assert (a + b)[..|a + b| - 1] == a + b0;
      SemanticPassAppend(a, b0, values, sim);
      StepCombines(SemanticPass(a, values, sim), SemanticPass(b0, values, sim), t, values, sim);
      if b0 == [] {
        StepOfNothing(t, values, sim);
      }
    }
  }

  /** A step after a combination is a step on the second part. */
  lemma StepCombines(p: SemanticOutcome, q: SemanticOutcome, t: string, values: seq<string>, sim: Similarity)
    requires values != []
    ensures SemanticStep(Combine(p, q), t, values, sim) == Combine(p, SemanticStep(q, t, values, sim))
  {
    var best := values[ArgMax(values, t, sim)];
    var score := sim(t, best);
    match GapTier(score)
    case ClearMatch =>
      var c := Covered(t, Semantic, best);
      assert (p.covered + q.covered) + [c] == p.covered + (q.covered + [c]);
    case Borderline =>
      var c := (t, best, score);
      assert (p.borderline + q.borderline) + [c] == p.borderline + (q.borderline + [c]);
    case ClearMiss =>
      assert (p.missing + q.missing) + [t] == p.missing + (q.missing + [t]);
  }

  lemma StepOfNothing(t: string, values: seq<string>, sim: Similarity)
    requires values != []
    ensures var best := values[ArgMax(values, t, sim)];
      SemanticStep(SemanticOutcome([], [], []), t, values, sim) ==
        match GapTier(sim(t, best))
        case ClearMatch => SemanticOutcome([Covered(t, Semantic, best)], [], [])
        case Borderline => SemanticOutcome([], [], [(t, best, sim(t, best))])
        case ClearMiss => SemanticOutcome([], [t], [])
  {
    var best := values[ArgMax(values, t, sim)];
    assert [] + [Covered(t, Semantic, best)] == [Covered(t, Semantic, best)];
    assert [] + [(t, best, sim(t, best))] == [(t, best, sim(t, best))];
    assert [] + [t] == [t];
  }

  /** Each semantic cover has a best-matching resume skill at similarity 0.7 or more, each
      borderline case one between 0.3 and 0.7 and each miss has none reaching 0.3. */
  lemma {:induction false} SemanticPassTiers(needs: seq<string>, values: seq<string>, sim: Similarity)
    requires values != []
    ensures var p := SemanticPass(needs, values, sim);
      && (forall c :: c in p.covered ==> c.kind == Semantic && c.matchedWith in values && sim(c.skill, c.matchedWith) >= 0.7)
      && (forall b :: b in p.borderline ==> b.1 in values && b.2 == sim(b.0, b.1) && 0.3 <= b.2 < 0.7)
      && (forall t :: t in p.missing ==> forall v :: v in values ==> sim(t, v) < 0.3)
  {
    if needs != [] {
      SemanticPassTiers(needs[..|needs| - 1], values, sim);
    }
  }

  // ---------------------------------------------------------------------------
  // Phase 3: the verifier (lines 210-234)

  /** `f"Resume skills: {', '.join(request.resume_skills)}"`. */
  function Context(resume: seq<string>): string
  {
    "Resume skills: " + Join(resume, ", ")
  }

  function RagPass(cases: seq<(string, string, real)>, verify: Verify, context: string): (p: (seq<Covered>, seq<string>))
    ensures |p.0| + |p.1| == |cases|
  {
    if cases == [] then ([], []) else
      var p := RagPass(cases[..|cases| - 1], verify, context);
      var c := cases[|cases| - 1];
      if Covers(verify(c.0, context, c.2)) then (p.0 + [Covered(c.0, RagVerified, c.1)], p.1)
      else (p.0, p.1 + [c.0])
  }

  /** Both lists follow the order of the borderline cases, duplicates included: the pass
      over a concatenation is the two passes' lists concatenated, and one case is covered
      exactly when the verifier says COVERED. */
  lemma {:induction false} RagPassAppend(a: seq<(string, string, real)>, b: seq<(string, string, real)>,
                                         verify: Verify, context: string)
    ensures var pa, pb := RagPass(a, verify, context), RagPass(b, verify, context);
      RagPass(a + b, verify, context) == (pa.0 + pb.0, pa.1 + pb.1)
    ensures |b| == 1 ==>
      var c := b[0];
      RagPass(b, verify, context) == if Covers(verify(c.0, context, c.2)) then ([Covered(c.0, RagVerified, c.1)], []) else ([], [c.0])
  {
    if b == [] {
      assert a + b == a;
      var pa := RagPass(a, verify, context);
      assert pa.0 + [] == pa.0 && pa.1 + [] == pa.1;
    } else {
      var b0, c := b[..|b| - 1], b[|b| - 1];
      assert (a + b)[..|a + b| - 1] == a + b0;
      assert (a + b)[|a + b| - 1] == c;
      RagPassAppend(a, b0, verify, context);
      var pa, pb := RagPass(a, verify, context), RagPass(b0, verify, context);
      if Covers(verify(c.0, context, c.2)) {
        var e := Covered(c.0, RagVerified, c.1);
        assert RagPass(b, verify, context) == (pb.0 + [e], pb.1);
        assert RagPass(a + b, verify, context) == ((pa.0 + pb.0) + [e], pa.1 + pb.1);
        assert (pa.0 + pb.0) + [e] == pa.0 + (pb.0 + [e]);
        assert b0 == [] ==> pb.0 + [e] == [e];
      } else {
        assert RagPass(b, verify, context) == (pb.0, pb.1 + [c.0]);
        assert RagPass(a + b, verify, context) == (pa.0 + pb.0, (pa.1 + pb.1) + [c.0]);
        assert (pa.1 + pb.1) + [c.0] == pa.1 + (pb.1 + [c.0]);
        assert b0 == [] ==> pb.1 + [c.0] == [c.0];
      }
    }
  }

  /** A borderline target is covered exactly when the verifier's decision is COVERED. */
  lemma {:induction false} RagPassDecisions(cases: seq<(string, string, real)>, verify: Verify, context: string)
    ensures forall c :: c in RagPass(cases, verify, context).0 ==>
      (c.kind == RagVerified
       && exists b :: b in cases && b.0 == c.skill && b.1 == c.matchedWith && Covers(verify(b.0, context, b.2)))
    ensures forall t :: t in RagPass(cases, verify, context).1 ==>
      exists b :: b in cases && b.0 == t && !Covers(verify(b.0, context, b.2))
  {
    if cases != [] {
      RagPassDecisions(cases[..|cases| - 1], verify, context);
    }
  }

  // ---------------------------------------------------------------------------
  // The whole analysis

  function CountKind(cs: seq<Covered>, k: MatchKind): (n: nat)
    ensures n <= |cs|
  {
    if cs == [] then 0 else CountKind(cs[..|cs| - 1], k) + (if cs[|cs| - 1].kind == k then 1 else 0)
  }

  /** The result of the three phases, or None when a target needs the semantic phase and
      the resume has no skills (`np.argmax` of an empty array raises, which the handler
      turns into an HTTP 500). */
  function GapListsOf(resume: seq<string>, targets: seq<string>, sim: Similarity, verify: Verify): Option<GapReport>
  {
    var d := ResumeLookup(resume);
    var exact := ExactPass(targets, d);
    if exact.1 == [] then Some(Finish(targets, exact.0, [], [], [], []))
    else if resume == [] then None
    else
      var sem := SemanticPass(exact.1, Values(d), sim);
      var rag := RagPass(sem.borderline, verify, Context(resume));
      Some(Finish(targets, exact.0, sem.covered, rag.0, sem.missing, rag.1))
  }

  /** Lines 236-260. */
  function Finish(targets: seq<string>, exact: seq<Covered>, semantic: seq<Covered>, verified: seq<Covered>,
                  semanticMisses: seq<string>, verifiedMisses: seq<string>): GapReport
  {
    var covered := exact + semantic + verified;
    var missing := semanticMisses + verifiedMisses;
    var ragVerified := CountKind(covered, RagVerified);
    GapReport(Percent(|covered|, |targets|), covered, missing, targets, FirstFive(missing),
              MatchingStats(|exact|, |covered| - |exact| - ragVerified, ragVerified, |missing|))
  }

  function Skills(cs: seq<Covered>): (r: seq<string>)
    ensures |r| == |cs| && forall i :: 0 <= i < |cs| ==> r[i] == cs[i].skill
  {
    if cs == [] then [] else Skills(cs[..|cs| - 1]) + [cs[|cs| - 1].skill]
  }

  lemma SkillsSnoc(cs: seq<Covered>, c: Covered)
    ensures Skills(cs + [c]) == Skills(cs) + [c.skill]
  {
    assert (cs + [c])[..|cs|] == cs;
  }

  lemma SkillsAppend(a: seq<Covered>, b: seq<Covered>)
    ensures Skills(a + b) == Skills(a) + Skills(b)
  {
  }

  lemma {:induction false} ExactPassPartition(targets: seq<string>, d: seq<(string, string)>)
    ensures multiset(Skills(ExactPass(targets, d).0)) + multiset(ExactPass(targets, d).1) == multiset(targets)
  {
    if targets != [] {
      var pre, t := targets[..|targets| - 1], targets[|targets| - 1];
      ExactPassPartition(pre, d);
      SnocSplit(targets);
      var p := ExactPass(pre, d);
      var a, b := multiset(Skills(p.0)), multiset(p.1);
      if Get(d, Key(t)).Some? {
        assert multiset(Skills(ExactPass(targets, d).0)) == a + multiset{t} by {
          SkillsSnoc(p.0, Covered(t, Exact, Get(d, Key(t)).value));
        }
      } else {
        assert multiset(ExactPass(targets, d).1) == b + multiset{t} by {
          SnocSplit(ExactPass(targets, d).1);
        }
      }
    }
  }

  lemma {:induction false} SemanticPassPartition(needs: seq<string>, values: seq<string>, sim: Similarity)
    requires values != []
    ensures var p := SemanticPass(needs, values, sim);
      multiset(Skills(p.covered)) + multiset(p.missing) + multiset(CaseSkills(p.borderline)) == multiset(needs)
  {
    if needs != [] {
      SemanticPassPartition(needs[..|needs| - 1], values, sim);
      SemanticPassStep(needs, values, sim);
      SnocSplit(needs);
    }
  }

  lemma SemanticPassStep(needs: seq<string>, values: seq<string>, sim: Similarity)
    requires values != [] && needs != []
    ensures var p, q := SemanticPass(needs[..|needs| - 1], values, sim), SemanticPass(needs, values, sim);
      multiset(Skills(q.covered)) + multiset(q.missing) + multiset(CaseSkills(q.borderline))
      == multiset(Skills(p.covered)) + multiset(p.missing) + multiset(CaseSkills(p.borderline))
         + multiset{needs[|needs| - 1]}
  {
    var p, t := SemanticPass(needs[..|needs| - 1], values, sim), needs[|needs| - 1];
    var q := SemanticPass(needs, values, sim);
    var best := values[ArgMax(values, t, sim)];
    var score := sim(t, best);
    var a, b, c := multiset(Skills(p.covered)), multiset(p.missing), multiset(CaseSkills(p.borderline));
    var tier := GapTier(score);
    if tier == ClearMatch {
      assert q == SemanticOutcome(p.covered + [Covered(t, Semantic, best)], p.missing, p.borderline);
      assert multiset(Skills(q.covered)) == a + multiset{t} by {
        SkillsSnoc(p.covered, Covered(t, Semantic, best));
      }
      AddToOne(a, b, c, t);
    } else if tier == ClearMiss {
      assert q == SemanticOutcome(p.covered, p.missing + [t], p.borderline);
      AddToOne(b, a, c, t);
    } else {
      assert q == SemanticOutcome(p.covered, p.missing, p.borderline + [(t, best, score)]);
      assert multiset(CaseSkills(q.borderline)) == c + multiset{t} by {
        CaseSkillsSnoc(p.borderline, (t, best, score));
      }
      AddToOne(c, a, b, t);
    }
  }

  lemma {:induction false} RagPassPartition(cases: seq<(string, string, real)>, verify: Verify, context: string)
    ensures var p := RagPass(cases, verify, context);
      multiset(Skills(p.0)) + multiset(p.1) == multiset(CaseSkills(cases))
  {
    if cases != [] {
      var pre, c := cases[..|cases| - 1], cases[|cases| - 1];
      RagPassPartition(pre, verify, context);
      var p := RagPass(pre, verify, context);
      assert CaseSkills(cases) == CaseSkills(pre) + [c.0] by {
        SnocSplit(cases);
        CaseSkillsSnoc(pre, c);
      }
      if Covers(verify(c.0, context, c.2)) {
        SkillsSnoc(p.0, Covered(c.0, RagVerified, c.1));
      }
    }
  }

  /** Every target, duplicates included, is reported exactly once, covered or missing. */
  lemma GapPartition(resume: seq<string>, targets: seq<string>, sim: Similarity, verify: Verify)
    requires GapListsOf(resume, targets, sim, verify).Some?
    ensures var r := GapListsOf(resume, targets, sim, verify).value;
      multiset(Skills(r.covered)) + multiset(r.missing) == multiset(targets)
  {
    var d := ResumeLookup(resume);
    var exact := ExactPass(targets, d);
    ExactPassPartition(targets, d);
    if exact.1 == [] {
      assert exact.0 + [] + [] == exact.0;
    } else {
      var sem := SemanticPass(exact.1, Values(d), sim);
      var rag := RagPass(sem.borderline, verify, Context(resume));
      SemanticPassPartition(exact.1, Values(d), sim);
      RagPassPartition(sem.borderline, verify, Context(resume));
      assert multiset(Skills(exact.0 + sem.covered + rag.0))
        == multiset(Skills(exact.0)) + multiset(Skills(sem.covered)) + multiset(Skills(rag.0)) by {
        SkillsAppend(exact.0 + sem.covered, rag.0);
        SkillsAppend(exact.0, sem.covered);
      }
      Regroup(multiset(Skills(exact.0)), multiset(exact.1), multiset(Skills(sem.covered)), multiset(sem.missing),
              multiset(CaseSkills(sem.borderline)), multiset(Skills(rag.0)), multiset(rag.1), multiset(targets));
    }
  }

  /** The bags of the three phases add up. */
  lemma Regroup(exact: multiset<string>, needs: multiset<string>, semantic: multiset<string>,
                semanticMisses: multiset<string>, borderline: multiset<string>,
                verified: multiset<string>, verifiedMisses: multiset<string>, targets: multiset<string>)
    requires exact + needs == targets
    requires semantic + semanticMisses + borderline == needs
    requires verified + verifiedMisses == borderline
    ensures (exact + semantic + verified) + (semanticMisses + verifiedMisses) == targets
  {
  }

  lemma {:induction false} CountKindAppend(a: seq<Covered>, b: seq<Covered>, k: MatchKind)
    ensures CountKind(a + b, k) == CountKind(a, k) + CountKind(b, k)
  {
    if b == [] {
      assert a + b == a;
    } else {
      assert (a + b)[..|a + b| - 1] == a + b[..|b| - 1];
      assert (a + b)[|a + b| - 1] == b[|b| - 1];
      assert (a + b)[|a + b| - 1] == b[|b| - 1];
      CountKindAppend(a, b[..|b| - 1], k);
    }
  }

  lemma {:induction false} CountKindAll(cs: seq<Covered>, k: MatchKind)
    requires forall c :: c in cs ==> c.kind == k
    ensures CountKind(cs, k) == |cs|
  {
    if cs != [] {
      CountKindAll(cs[..|cs| - 1], k);
    }
  }

  lemma {:induction false} CountKindNone(cs: seq<Covered>, k: MatchKind)
    requires forall c :: c in cs ==> c.kind != k
    ensures CountKind(cs, k) == 0
  {
    if cs != [] {
      CountKindNone(cs[..|cs| - 1], k);
    }
  }

  /** The statistics: `exact_matches` counts the exact covers, `rag_verified` the verified
      ones, and `semantic_matches`, computed as covered minus both, counts exactly the
      semantic covers; `missing` and the percentage agree with the lists. */
  lemma GapStats(resume: seq<string>, targets: seq<string>, sim: Similarity, verify: Verify)
    requires GapListsOf(resume, targets, sim, verify).Some?
    ensures var r := GapListsOf(resume, targets, sim, verify).value;
      && r.stats.exactMatches == CountKind(r.covered, Exact)
      && r.stats.ragVerified == CountKind(r.covered, RagVerified)
      && r.stats.semanticMatches == CountKind(r.covered, Semantic)
      && r.stats.missing == |r.missing| && |r.covered| + |r.missing| == |targets|
  {
    var d := ResumeLookup(resume);
    var exact := ExactPass(targets, d);
    ExactPassMeaning(targets, d);
    if exact.1 == [] {
      KindCounts(exact.0, [], []);
    } else {
      var sem := SemanticPass(exact.1, Values(d), sim);
      var rag := RagPass(sem.borderline, verify, Context(resume));
      SemanticPassTiers(exact.1, Values(d), sim);
      RagPassDecisions(sem.borderline, verify, Context(resume));
      KindCounts(exact.0, sem.covered, rag.0);
    }
  }

  lemma KindCounts(e: seq<Covered>, s: seq<Covered>, r: seq<Covered>)
    requires forall c :: c in e ==> c.kind == Exact
    requires forall c :: c in s ==> c.kind == Semantic
    requires forall c :: c in r ==> c.kind == RagVerified
    ensures CountKind(e + s + r, Exact) == |e|
    ensures CountKind(e + s + r, Semantic) == |s|
    ensures CountKind(e + s + r, RagVerified) == |r|
  {
    CountKindAppend(e + s, r, Exact);
    CountKindAppend(e, s, Exact);
    CountKindAppend(e + s, r, Semantic);
    CountKindAppend(e, s, Semantic);
    CountKindAppend(e + s, r, RagVerified);
    CountKindAppend(e, s, RagVerified);
    CountKindAll(e, Exact);
    CountKindNone(e, Semantic);
    CountKindNone(e, RagVerified);
    CountKindNone(s, Exact);
    CountKindAll(s, Semantic);
    CountKindNone(s, RagVerified);
    CountKindNone(r, Exact);
    CountKindNone(r, Semantic);
    CountKindAll(r, RagVerified);
  }

  /** The match percentage lies in [0, 100], is 0 without targets and 100 when every
      target is covered; the roadmap gets at most five names, the first missing ones. */
  lemma GapPercentage(resume: seq<string>, targets: seq<string>, sim: Similarity, verify: Verify)
    requires GapListsOf(resume, targets, sim, verify).Some?
    ensures var r := GapListsOf(resume, targets, sim, verify).value;
      && 0.0 <= r.matchPercentage <= 100.0
      && (targets == [] ==> r.matchPercentage == 0.0)
      && (targets != [] && r.missing == [] ==> r.matchPercentage == 100.0)
      && |r.roadmapInput| <= 5 && r.roadmapInput <= r.missing
  {
    var r := GapListsOf(resume, targets, sim, verify).value;
    GapStats(resume, targets, sim, verify);
    PercentBounds(|r.covered|, |targets|);
    FirstFiveIsHead(r.missing);
  }

  /** Without targets, or with every target matched exactly, an empty resume is fine;
      otherwise it makes the analysis fail. */
  lemma EmptyResumeFails(targets: seq<string>, sim: Similarity, verify: Verify)
    ensures GapListsOf([], targets, sim, verify).None? <==> targets != []
  {
    var exact := ExactPass(targets, []);
    ExactPassMeaning(targets, []);
    if targets != [] {
      assert targets[0] in exact.1;
    } else {
      assert exact.1 == [];
    }
  }

  // ---------------------------------------------------------------------------
  // The handler

  /** `analyze_gap_lists`: the role's target skills from the analyzer, then the three
      phases; None stands for the HTTP 500 raised when the semantic phase has no resume
      skills to compare with. */
  method AnalyzeGapLists(analyzer: GapAnalyzer, resumeSkills: seq<string>, targetRole: string, experienceLevel: string,
                         json: string -> Option<seq<string>>, generate: (string, string) -> seq<string>,
                         sim: Similarity, ask: Ask)
    returns (targetSkills: seq<string>, report: Option<GapReport>)
    ensures report == GapListsOf(resumeSkills, targetSkills, sim, VerifierOf(analyzer.hasClient, ask))
    ensures var s := analyzer.jobDb.RoleSkills(targetRole, Some(experienceLevel), json);
      if analyzer.jobDb.IsAvailable() && |s| >= 10 then
        && |targetSkills| == (if |s| < 30 then |s| else 30) && Distinct(targetSkills)
        && forall y :: y in targetSkills ==> y in s
      else targetSkills == generate(targetRole, experienceLevel)
  {
    targetSkills := analyzer.GetRequiredSkills(targetRole, experienceLevel, json, generate);
    report := MatchLists(resumeSkills, targetSkills, sim, analyzer.hasClient, ask);
  }

  /** Lines 143-260 for a given list of target skills. */
  method MatchLists(resume: seq<string>, targets: seq<string>, sim: Similarity, hasClient: bool, ask: Ask)
    returns (report: Option<GapReport>)
    ensures report == GapListsOf(resume, targets, sim, VerifierOf(hasClient, ask))
  {
    var d := ResumeLookup(resume);
    var covered, needsSemantic := ExactPhase(targets, d);
    if needsSemantic == [] {
      return Some(Finish(targets, covered, [], [], [], []));
    }
    if resume == [] {
      return None;
    }
    var sem := SemanticPhase(needsSemantic, Values(d), sim);
    var ragCovered, ragMissing := [], [];
    if sem.borderline != [] {
      ragCovered, ragMissing := RagPhase(sem.borderline, hasClient, ask, Context(resume));
    } else {
      assert RagPass([], VerifierOf(hasClient, ask), Context(resume)) == ([], []);
    }
    report := Some(Finish(targets, covered, sem.covered, ragCovered, sem.missing, ragMissing));
  }

  /** The loop of lines 149-159. */
  method ExactPhase(targets: seq<string>, d: seq<(string, string)>)
    returns (covered: seq<Covered>, needsSemantic: seq<string>)
    ensures (covered, needsSemantic) == ExactPass(targets, d)
  {
    covered, needsSemantic := [], [];
    for i := 0 to |targets|
      invariant (covered, needsSemantic) == ExactPass(targets[..i], d)
    {
      assert targets[..i + 1][..i] == targets[..i];
      var targetLower := Key(targets[i]);
      var hit := Get(d, targetLower);
      if hit.Some? {
        covered := covered + [Covered(targets[i], Exact, hit.value)];
      } else {
        needsSemantic := needsSemantic + [targets[i]];
      }
    }
    assert targets[..|targets|] == targets;
  }

  /** The loop of lines 174-204. */
  method SemanticPhase(needs: seq<string>, values: seq<string>, sim: Similarity) returns (p: SemanticOutcome)
    requires values != []
    ensures p == SemanticPass(needs, values, sim)
  {
    p := SemanticOutcome([], [], []);
    for i := 0 to |needs|
      invariant p == SemanticPass(needs[..i], values, sim)
    {
      assert needs[..i + 1][..i] == needs[..i];
      var target := needs[i];
      var bestMatch := values[ArgMax(values, target, sim)];
      var bestScore := sim(target, bestMatch);
      if bestScore >= 0.7 {
        p := p.(covered := p.covered + [Covered(target, Semantic, bestMatch)]);
      } else if bestScore >= 0.3 {
        p := p.(borderline := p.borderline + [(target, bestMatch, bestScore)]);
      } else {
        p := p.(missing := p.missing + [target]);
      }
    }
    assert needs[..|needs|] == needs;
  }

  /** The loop of lines 213-234. */
  method RagPhase(cases: seq<(string, string, real)>, hasClient: bool, ask: Ask, context: string)
    returns (covered: seq<Covered>, missing: seq<string>)
    ensures (covered, missing) == RagPass(cases, VerifierOf(hasClient, ask), context)
  {
    var verify := VerifierOf(hasClient, ask);
    covered, missing := [], [];
    for i := 0 to |cases|
      invariant (covered, missing) == RagPass(cases[..i], verify, context)
    {
      assert cases[..i + 1][..i] == cases[..i];
      var (target, bestMatch, score) := cases[i];
      var verification := VerifySkill(hasClient, ask, target, context, score);
      assert verification == verify(target, context, score);
      if "decision" in verification && verification["decision"] == JStr("COVERED") {
        covered := covered + [Covered(target, RagVerified, bestMatch)];
      } else {
        missing := missing + [target];
      }
    }
    assert cases[..|cases|] == cases;
  }
}
