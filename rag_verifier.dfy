/** Response validation and the threshold fallback of `RAGVerifier`
    (app/services/rag_verifier.py). The prompt and the LLM call are not part of this model:
    the generator is a flag saying whether it has a client, plus a function from
    (skill, context, score) to the reply the call produced. */
module RagVerifier {
  import opened Text

  /** A value of the dictionary `verify_skill` returns. The first five are what
      `json.loads` can put there (an array or an object is kept only as its truthiness);
      `ThresholdNote(score)` is the fallback's reasoning text, which formats its score. */
  datatype Value =
    | JStr(s: string)
    | JNum(n: real)
    | JBool(b: bool)
    | JNull
    | JCompound(nonEmpty: bool)
    | ThresholdNote(score: real)

  /** What the LLM call leaves behind: the parsed JSON object, or a failure (the call
      raised, the content was not JSON, or it was not an object). */
  datatype Reply = Parsed(fields: map<string, Value>) | Failed

  /** The decisions `verify_skill` accepts (line 90). */
  const Decisions: set<string> := {"COVERED", "MISSING", "PARTIAL"}

  /** The confidence put in when the reply has none (line 96). */
  const DefaultConfidence: real := 0.7

  const DefaultReasoning: string := "AI verification completed"

  // ---------------------------------------------------------------------------
  // _threshold_fallback

  function Abs(x: real): (r: real)
    ensures r >= 0.0 && (r == x || r == -x)
  {
    if x < 0.0 then -x else x
  }

  /** The fallback's decision, at threshold 0.5 (lines 114-115). */
  function FallbackDecision(score: real): (d: string)
    ensures d == "COVERED" <==> score >= 0.5
    ensures d == "MISSING" <==> score < 0.5
  {
    if score >= 0.5 then "COVERED" else "MISSING"
  }

  /** `min(abs(score - 0.5) * 2, 1.0)` (lines 118-119); the rounding to two decimals is
      not modelled. */
  function FallbackConfidence(score: real): (c: real)
    ensures 0.0 <= c <= 1.0
    ensures c == 1.0 <==> (score <= 0.0 || score >= 1.0)
    ensures c == 0.0 <==> score == 0.5
  {
    if Abs(score - 0.5) * 2.0 < 1.0 then Abs(score - 0.5) * 2.0 else 1.0
  }

  /** `_threshold_fallback(score)` (lines 112-126). */
  function Fallback(score: real): (r: map<string, Value>)
    ensures r.Keys == {"decision", "confidence", "reasoning", "evidence"}
    ensures r["evidence"] == JNull
  {
    map["decision" := JStr(FallbackDecision(score)),
        "confidence" := JNum(FallbackConfidence(score)),
        "reasoning" := ThresholdNote(score),
        "evidence" := JNull]
  }

  /** The further a score lies from the threshold, the more confident the fallback. */
  lemma FallbackConfidenceGrows(s: real, t: real)
    requires Abs(s - 0.5) <= Abs(t - 0.5)
    ensures FallbackConfidence(s) <= FallbackConfidence(t)
  {
  }

  // ---------------------------------------------------------------------------
  // verify_skill

  /** A value the f-string `{...:.2f}` of line 102 can format: an int, a float or a bool.
      Formatting anything else raises, and the handler of line 108 falls back. */
  predicate Formattable(v: Value)
  {
    v.JNum? || v.JBool?
  }

  /** The reply with its decision upper-cased and the missing fields filled in
      (lines 89, 95-100). */
  function Completed(fields: map<string, Value>, decision: string): (r: map<string, Value>)
  {
    WithDefaultReasoning(WithDefaultConfidence(fields["decision" := JStr(decision)]))
  }

  function WithDefaultConfidence(fields: map<string, Value>): map<string, Value>
  {
    if "confidence" in fields then fields else fields["confidence" := JNum(DefaultConfidence)]
  }

  function WithDefaultReasoning(fields: map<string, Value>): map<string, Value>
  {
    if "reasoning" in fields then fields else fields["reasoning" := JStr(DefaultReasoning)]
  }

  /** The reply is used, rather than the fallback, exactly when it has a string decision
      whose upper-case form is a known decision, and the resulting confidence can be
      formatted by the log line. */
  predicate Usable(fields: map<string, Value>)
  {
    && "decision" in fields && fields["decision"].JStr?
    && Upper(fields["decision"].s) in Decisions
    && Formattable(Completed(fields, Upper(fields["decision"].s))["confidence"])
  }

  /** `verify_skill(skill, context, score)` given whether the generator has a client and
      the reply its call produced. */
  function Verification(hasClient: bool, reply: Reply, score: real): (r: map<string, Value>)
    ensures "decision" in r && r["decision"].JStr? && r["decision"].s in Decisions
    ensures "confidence" in r && "reasoning" in r
    ensures !hasClient || reply.Failed? ==> r == Fallback(score)
    ensures hasClient && reply.Parsed? && !Usable(reply.fields) ==> r == Fallback(score)
  {
    if hasClient && reply.Parsed? && Usable(reply.fields) then
      Completed(reply.fields, Upper(reply.fields["decision"].s))
    else
      Fallback(score)
  }

  /** When the reply is used, its decision is upper-cased, a missing confidence becomes
      0.7 and a missing reasoning "AI verification completed", and every other field is
      passed through untouched. */
  lemma ReplyPassedThrough(reply: Reply, score: real)
    requires reply.Parsed? && Usable(reply.fields)
    ensures Verification(true, reply, score).Keys == reply.fields.Keys + {"confidence", "reasoning"}
    ensures Verification(true, reply, score)["decision"] == JStr(Upper(reply.fields["decision"].s))
    ensures "confidence" !in reply.fields ==> Verification(true, reply, score)["confidence"] == JNum(0.7)
    ensures "reasoning" !in reply.fields ==>
      Verification(true, reply, score)["reasoning"] == JStr("AI verification completed")
    ensures forall k :: k in reply.fields && k != "decision" ==> Verification(true, reply, score)[k] == reply.fields[k]
  {
    var r := Verification(true, reply, score);
    var d := Upper(reply.fields["decision"].s);
    assert r == Completed(reply.fields, d);
  }

  /** A reply without a decision, or with one whose upper-case form is not COVERED,
      MISSING or PARTIAL, gives the threshold fallback. */
  lemma BadDecisionFallsBack(fields: map<string, Value>, score: real)
    requires "decision" !in fields || (fields["decision"].JStr? && Upper(fields["decision"].s) !in Decisions)
    ensures Verification(true, Parsed(fields), score) == Fallback(score)
  {
  }

  /** The decision is compared without regard to case. */
  lemma DecisionIgnoresCase(fields: map<string, Value>, d: string, score: real)
    ensures Verification(true, Parsed(fields["decision" := JStr(Lower(d))]), score)
         == Verification(true, Parsed(fields["decision" := JStr(d)]), score)
  {
    UpperIgnoresCase(d);
    var a, b := fields["decision" := JStr(Lower(d))], fields["decision" := JStr(d)];
    assert a["decision" := JStr(Upper(d))] == b["decision" := JStr(Upper(d))];
    assert Completed(a, Upper(d)) == Completed(b, Upper(d));
  }

  /** `verify_skill`, updating the parsed reply in place as lines 89-100 do. */
  method VerifySkill(hasClient: bool, ask: (string, string, real) -> Reply,
                     skill: string, context: string, score: real)
    returns (result: map<string, Value>)
    ensures result == Verification(hasClient, ask(skill, context, score), score)
  {
    if !hasClient {
      return Fallback(score);
    }
    var reply := ask(skill, context, score);
    if reply.Failed? {
      return Fallback(score);
    }
    result := reply.fields;
    if "decision" !in result || !result["decision"].JStr? {
      return Fallback(score);
    }
    var decision := Upper(result["decision"].s);
    result := result["decision" := JStr(decision)];
    if decision !in Decisions {
      return Fallback(score);
    }
    if "confidence" !in result {
      result := result["confidence" := JNum(DefaultConfidence)];
    }
    if "reasoning" !in result {
      result := result["reasoning" := JStr(DefaultReasoning)];
    }
    if !Formattable(result["confidence"]) {
      return Fallback(score);
    }
  }

  // ---------------------------------------------------------------------------
  // batch_verify

  function Min3(a: nat, b: nat, c: nat): (m: nat)
    ensures m <= a && m <= b && m <= c
    ensures m == a || m == b || m == c
  {
    if a <= b && a <= c then a else if b <= c then b else c
  }

  /** `batch_verify`: one verification per triple of `zip(skills, contexts, scores)`. */
  method BatchVerify(hasClient: bool, ask: (string, string, real) -> Reply,
                     skills: seq<string>, contexts: seq<string>, scores: seq<real>)
    returns (results: seq<map<string, Value>>)
    ensures |results| == Min3(|skills|, |contexts|, |scores|)
    ensures forall i :: 0 <= i < |results| ==>
      results[i] == Verification(hasClient, ask(skills[i], contexts[i], scores[i]), scores[i])
  {
    var n := Min3(|skills|, |contexts|, |scores|);
    results := [];
    for i := 0 to n
      invariant |results| == i
      invariant forall j :: 0 <= j < i ==>
        results[j] == Verification(hasClient, ask(skills[j], contexts[j], scores[j]), scores[j])
    {
      var result := VerifySkill(hasClient, ask, skills[i], contexts[i], scores[i]);
      results := results + [result];
    }
  }
}
