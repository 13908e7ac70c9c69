/**
 * The result validator of services/validateOutput.js: a strict schema check of
 * the language model's parsed JSON before anything trusts or stores it.
 *
 * The schema is a Zod object. Zod parses every declared key, collects one issue
 * per violation (with the path of the offending value and what was expected),
 * and either returns the parsed value (unknown keys stripped, absent arrays
 * defaulted to `[]`) or throws a `ZodError` carrying all issues. `Validate`
 * models that as a total function to `Result<ScoreResult, seq<Issue>>`.
 */
module Validator {
  import opened Wrappers
  import opened JsonData

  const MinScore: real := 0.0
  const MaxScore: real := 10.0

  // The keys the schema declares, in declaration order.
  const KeyOverall := "overallScore"
  const KeyScores := "scores"
  const KeyEmpathy := "empathy"
  const KeyClarity := "clarity"
  const KeyProduct := "productKnowledge"
  const KeyFeedback := "feedback"
  const KeySummary := "summary"
  const KeyStrengths := "strengths"
  const KeyAreas := "areasForImprovement"

  const SchemaKeys: seq<string> :=
    [KeyOverall, KeyScores, KeyEmpathy, KeyClarity, KeyProduct,
     KeyFeedback, KeySummary, KeyStrengths, KeyAreas]

  const TopLevelKeys: set<string> := {KeyOverall, KeyScores, KeyFeedback}

  datatype Scores = Scores(empathy: real, clarity: real, productKnowledge: real)
  datatype Feedback = Feedback(summary: string, strengths: seq<string>, areasForImprovement: seq<string>)
  datatype ScoreResult = ScoreResult(overallScore: real, scores: Scores, feedback: Feedback)

  /** What a Zod issue says was expected, and where. */
  datatype Kind = KNumber | KString | KObject | KArray
  datatype Code = InvalidType(expected: Kind) | TooSmall | TooBig
  datatype Segment = Key(name: string) | Index(i: nat)
  datatype Issue = Issue(path: seq<Segment>, code: Code)

  predicate InRange(x: real) {
    MinScore <= x <= MaxScore
  }

  /** The invariant every validated result satisfies. */
  predicate WellFormed(r: ScoreResult) {
    && InRange(r.overallScore)
    && InRange(r.scores.empathy)
    && InRange(r.scores.clarity)
    && InRange(r.scores.productKnowledge)
    && |r.feedback.summary| >= 1
  }

  // ---------------------------------------------------------------------------
  // Reference definition: when does a JSON value satisfy the schema?

  predicate IsScore(v: Option<Json>) {
    v.Some? && v.value.JNum? && InRange(v.value.n)
  }

  predicate IsSummary(v: Option<Json>) {
    v.Some? && v.value.JStr? && |v.value.s| >= 1
  }

  /** `z.array(z.string()).default([])`: absent, or an array of strings.
      The default replaces only `undefined`, so an explicit `null` fails. */
  predicate IsStringListOrAbsent(v: Option<Json>) {
    v.None? || (v.value.JArr? && forall e :: e in v.value.elems ==> e.JStr?)
  }

  predicate Conforms(j: Json) {
    && j.JObj?
    && IsScore(Get(j, KeyOverall))
    && var s := Get(j, KeyScores);
    && s.Some? && s.value.JObj?
    && IsScore(Get(s.value, KeyEmpathy))
    && IsScore(Get(s.value, KeyClarity))
    && IsScore(Get(s.value, KeyProduct))
    && var f := Get(j, KeyFeedback);
    && f.Some? && f.value.JObj?
    && IsSummary(Get(f.value, KeySummary))
    && IsStringListOrAbsent(Get(f.value, KeyStrengths))
    && IsStringListOrAbsent(Get(f.value, KeyAreas))
  }

  // ---------------------------------------------------------------------------
  // Encoding a result back to JSON (what the route returns and Mongo stores).

  function JsonStrings(xs: seq<string>): (r: seq<Json>)
    ensures |r| == |xs|
    ensures forall i :: 0 <= i < |xs| ==> r[i] == JStr(xs[i])
  {
    seq(|xs|, i requires 0 <= i < |xs| => JStr(xs[i]))
  }

  function ToJson(r: ScoreResult): Json {
    JObj(map[
      KeyOverall := JNum(r.overallScore),
      KeyScores := JObj(map[
        KeyEmpathy := JNum(r.scores.empathy),
        KeyClarity := JNum(r.scores.clarity),
        KeyProduct := JNum(r.scores.productKnowledge)]),
      KeyFeedback := JObj(map[
        KeySummary := JStr(r.feedback.summary),
        KeyStrengths := JArr(JsonStrings(r.feedback.strengths)),
        KeyAreas := JArr(JsonStrings(r.feedback.areasForImprovement))])])
  }

  /** The parsed array, or its default, agrees with the JSON it came from. */
  predicate ListAgrees(v: Option<Json>, xs: seq<string>) {
    (v.None? && xs == []) || v == Some(JArr(JsonStrings(xs)))
  }

  /** Every field of `r` is the value found at the same path of `j`. */
  predicate Agrees(j: Json, r: ScoreResult) {
    && Get(j, KeyOverall) == Some(JNum(r.overallScore))
    && Get(j, KeyScores).Some?
    && Get(Get(j, KeyScores).value, KeyEmpathy) == Some(JNum(r.scores.empathy))
    && Get(Get(j, KeyScores).value, KeyClarity) == Some(JNum(r.scores.clarity))
    && Get(Get(j, KeyScores).value, KeyProduct) == Some(JNum(r.scores.productKnowledge))
    && Get(j, KeyFeedback).Some?
    && Get(Get(j, KeyFeedback).value, KeySummary) == Some(JStr(r.feedback.summary))
    && ListAgrees(Get(Get(j, KeyFeedback).value, KeyStrengths), r.feedback.strengths)
    && ListAgrees(Get(Get(j, KeyFeedback).value, KeyAreas), r.feedback.areasForImprovement)
  }

  // ---------------------------------------------------------------------------
  // The Zod parsers, one per schema node.

  /** The issues of a failed parse, or none. */
  function Issues<T>(r: Result<T, seq<Issue>>): seq<Issue> {
    if r.Failure? then r.error else []
  }

  /** Every issue lies at `path` or below it. */
  predicate Under(issues: seq<Issue>, path: seq<Segment>) {
    forall k :: 0 <= k < |issues| ==> path <= issues[k].path
  }

  /** `z.number().min(0).max(10)`. */
  function ParseScore(v: Option<Json>, path: seq<Segment>): (r: Result<real, seq<Issue>>)
    ensures r.Success? <==> IsScore(v)
    ensures r.Success? ==> v == Some(JNum(r.value))
    ensures r.Failure? ==> |r.error| > 0 && forall k :: 0 <= k < |r.error| ==> r.error[k].path == path
  {
    match v
    case Some(JNum(x)) =>
      var issues := (if x < MinScore then [Issue(path, TooSmall)] else [])
                  + (if x > MaxScore then [Issue(path, TooBig)] else []);
      if issues == [] then Success(x) else Failure(issues)
    case _ => Failure([Issue(path, InvalidType(KNumber))])
  }

  /** `z.string().min(1)`. */
  function ParseSummary(v: Option<Json>, path: seq<Segment>): (r: Result<string, seq<Issue>>)
    ensures r.Success? <==> IsSummary(v)
    ensures r.Success? ==> v == Some(JStr(r.value))
    ensures r.Failure? ==> |r.error| > 0 && forall k :: 0 <= k < |r.error| ==> r.error[k].path == path
  {
    match v
    case Some(JStr(s)) => if |s| < 1 then Failure([Issue(path, TooSmall)]) else Success(s)
    case _ => Failure([Issue(path, InvalidType(KString))])
  }

  /** One issue per element of `es` that is not a string, at its index. */
  function ElementIssues(es: seq<Json>, path: seq<Segment>): (r: seq<Issue>)
    ensures |r| == 0 <==> forall e :: e in es ==> e.JStr?
    ensures Under(r, path)
  {
    if es == [] then []
    else
      var last := |es| - 1;
      assert es == es[..last] + [es[last]];
      ElementIssues(es[..last], path)
        + (if es[last].JStr? then [] else [Issue(path + [Index(last)], InvalidType(KString))])
  }

  /** `z.array(z.string()).default([])`. */
  function ParseStringList(v: Option<Json>, path: seq<Segment>): (r: Result<seq<string>, seq<Issue>>)
    ensures r.Success? <==> IsStringListOrAbsent(v)
    ensures r.Success? ==> ListAgrees(v, r.value)
    ensures r.Failure? ==> |r.error| > 0 && Under(r.error, path)
  {
    match v
    case None => Success([])
    case Some(JArr(es)) =>
      var issues := ElementIssues(es, path);
      if issues != [] then Failure(issues)
      else
        var xs := seq(|es|, i requires 0 <= i < |es| && es[i].JStr? => es[i].s);
        assert JsonStrings(xs) == es by {
          forall i | 0 <= i < |es| ensures JsonStrings(xs)[i] == es[i] {
            assert es[i] in es;
          }
        }
        Success(xs)
    case Some(_) => Failure([Issue(path, InvalidType(KArray))])
  }

  /** The nested `scores` object. */
  function ParseScores(v: Option<Json>, path: seq<Segment>): (r: Result<Scores, seq<Issue>>)
    ensures r.Success? <==> (v.Some? && v.value.JObj?
                             && IsScore(Get(v.value, KeyEmpathy))
                             && IsScore(Get(v.value, KeyClarity))
                             && IsScore(Get(v.value, KeyProduct)))
    ensures r.Success? ==> (Get(v.value, KeyEmpathy) == Some(JNum(r.value.empathy))
                            && Get(v.value, KeyClarity) == Some(JNum(r.value.clarity))
                            && Get(v.value, KeyProduct) == Some(JNum(r.value.productKnowledge)))
    ensures r.Failure? ==> |r.error| > 0 && Under(r.error, path)
  {
    match v
    case Some(JObj(m)) =>
      var e := ParseScore(Get(v.value, KeyEmpathy), path + [Key(KeyEmpathy)]);
      var c := ParseScore(Get(v.value, KeyClarity), path + [Key(KeyClarity)]);
      var p := ParseScore(Get(v.value, KeyProduct), path + [Key(KeyProduct)]);
      if e.Success? && c.Success? && p.Success? then Success(Scores(e.value, c.value, p.value))
      else Failure(Issues(e) + Issues(c) + Issues(p))
    case _ => Failure([Issue(path, InvalidType(KObject))])
  }

  /** The nested `feedback` object. */
  function ParseFeedback(v: Option<Json>, path: seq<Segment>): (r: Result<Feedback, seq<Issue>>)
    ensures r.Success? <==> (v.Some? && v.value.JObj?
                             && IsSummary(Get(v.value, KeySummary))
                             && IsStringListOrAbsent(Get(v.value, KeyStrengths))
                             && IsStringListOrAbsent(Get(v.value, KeyAreas)))
    ensures r.Success? ==> (Get(v.value, KeySummary) == Some(JStr(r.value.summary))
                            && ListAgrees(Get(v.value, KeyStrengths), r.value.strengths)
                            && ListAgrees(Get(v.value, KeyAreas), r.value.areasForImprovement))
    ensures r.Failure? ==> |r.error| > 0 && Under(r.error, path)
  {
    match v
    case Some(JObj(m)) =>
      var s := ParseSummary(Get(v.value, KeySummary), path + [Key(KeySummary)]);
      var st := ParseStringList(Get(v.value, KeyStrengths), path + [Key(KeyStrengths)]);
      var ar := ParseStringList(Get(v.value, KeyAreas), path + [Key(KeyAreas)]);
      if s.Success? && st.Success? && ar.Success? then Success(Feedback(s.value, st.value, ar.value))
      else Failure(Issues(s) + Issues(st) + Issues(ar))
    case _ => Failure([Issue(path, InvalidType(KObject))])
  }

  /**
   * `validateEvaluationResult`: accepts exactly the values that conform to the
   * schema, returns their fields unchanged (absent arrays as `[]`), and
   * otherwise fails with at least one issue and no partial result.
   */
  function Validate(j: Json): (r: Result<ScoreResult, seq<Issue>>)
    ensures r.Success? <==> Conforms(j)
    ensures r.Success? ==> WellFormed(r.value) && Agrees(j, r.value)
    ensures r.Failure? ==> |r.error| > 0
  {
    match j
    case JObj(m) =>
      var o := ParseScore(Get(j, KeyOverall), [Key(KeyOverall)]);
      var s := ParseScores(Get(j, KeyScores), [Key(KeyScores)]);
      var f := ParseFeedback(Get(j, KeyFeedback), [Key(KeyFeedback)]);
      if o.Success? && s.Success? && f.Success? then Success(ScoreResult(o.value, s.value, f.value))
      else Failure(Issues(o) + Issues(s) + Issues(f))
    case _ => Failure([Issue([], InvalidType(KObject))])
  }

  // ---------------------------------------------------------------------------
  // Properties

  /** A well-formed result survives encoding and re-validation unchanged. */
  lemma ValidateToJson(r: ScoreResult)
    requires WellFormed(r)
    ensures Validate(ToJson(r)) == Success(r)
  {
    var j := ToJson(r);
    var sc := Get(j, KeyScores).value;
    var fb := Get(j, KeyFeedback).value;
    assert Get(sc, KeyEmpathy) == Some(JNum(r.scores.empathy));
    assert Get(sc, KeyClarity) == Some(JNum(r.scores.clarity));
    assert Get(sc, KeyProduct) == Some(JNum(r.scores.productKnowledge));
    assert Get(fb, KeySummary) == Some(JStr(r.feedback.summary));
    assert Get(fb, KeyStrengths) == Some(JArr(JsonStrings(r.feedback.strengths)));
    assert Get(fb, KeyAreas) == Some(JArr(JsonStrings(r.feedback.areasForImprovement)));
    assert Conforms(j);
    var v := Validate(j).value;
    JsonStringsInjective(v.feedback.strengths, r.feedback.strengths);
    JsonStringsInjective(v.feedback.areasForImprovement, r.feedback.areasForImprovement);
  }

  lemma JsonStringsInjective(xs: seq<string>, ys: seq<string>)
    requires JsonStrings(xs) == JsonStrings(ys)
    ensures xs == ys
  {
    assert |xs| == |ys|;
    forall i | 0 <= i < |xs| ensures xs[i] == ys[i] {
      assert JsonStrings(xs)[i] == JsonStrings(ys)[i];
    }
  }

  /** Whatever the validator accepts encodes back to a value it accepts
      identically: validation is a normal form. */
  lemma ValidateIdempotent(j: Json)
    requires Validate(j).Success?
    ensures Validate(ToJson(Validate(j).value)) == Validate(j)
  {
    ValidateToJson(Validate(j).value);
  }

  /** Absent `strengths` and `areasForImprovement` become `[]`. */
  lemma AbsentListsDefaultToEmpty(j: Json)
    requires Validate(j).Success?
    ensures Get(Get(j, KeyFeedback).value, KeyStrengths).None? ==> Validate(j).value.feedback.strengths == []
    ensures Get(Get(j, KeyFeedback).value, KeyAreas).None? ==> Validate(j).value.feedback.areasForImprovement == []
  {
  }

  /** An overall score outside [0, 10] is reported at its own path as too
      small or too big, and nothing is returned. */
  lemma RejectsOverallOutOfRange(j: Json, x: real)
    requires Get(j, KeyOverall) == Some(JNum(x))
    requires x < MinScore || x > MaxScore
    ensures Validate(j).Failure?
    ensures exists k :: 0 <= k < |Validate(j).error|
              && Validate(j).error[k] == Issue([Key(KeyOverall)], if x < MinScore then TooSmall else TooBig)
  {
    var o := ParseScore(Get(j, KeyOverall), [Key(KeyOverall)]);
    assert o.error[0] == Issue([Key(KeyOverall)], if x < MinScore then TooSmall else TooBig);
    var s := ParseScores(Get(j, KeyScores), [Key(KeyScores)]);
    var f := ParseFeedback(Get(j, KeyFeedback), [Key(KeyFeedback)]);
    assert Validate(j).error == Issues(o) + Issues(s) + Issues(f);
    assert Validate(j).error[0] == o.error[0];
  }

  /** An empty summary is reported at `feedback.summary` as too small. */
  lemma RejectsEmptySummary(j: Json)
    requires Get(j, KeyFeedback).Some? && Get(j, KeyFeedback).value.JObj?
    requires Get(Get(j, KeyFeedback).value, KeySummary) == Some(JStr(""))
    ensures Validate(j).Failure?
    ensures exists k :: 0 <= k < |Validate(j).error|
              && Validate(j).error[k] == Issue([Key(KeyFeedback), Key(KeySummary)], TooSmall)
  {
    var path := [Key(KeyFeedback)];
    var fb := Get(j, KeyFeedback);
    var sm := ParseSummary(Get(fb.value, KeySummary), path + [Key(KeySummary)]);
    assert path + [Key(KeySummary)] == [Key(KeyFeedback), Key(KeySummary)];
    assert sm.error == [Issue([Key(KeyFeedback), Key(KeySummary)], TooSmall)];
    var st := ParseStringList(Get(fb.value, KeyStrengths), path + [Key(KeyStrengths)]);
    var ar := ParseStringList(Get(fb.value, KeyAreas), path + [Key(KeyAreas)]);
    var f := ParseFeedback(fb, path);
    assert f.error == Issues(sm) + Issues(st) + Issues(ar);
    assert f.error[0] == sm.error[0];
    var o := ParseScore(Get(j, KeyOverall), [Key(KeyOverall)]);
    var s := ParseScores(Get(j, KeyScores), [Key(KeyScores)]);
    assert Validate(j).error == Issues(o) + Issues(s) + Issues(f);
    assert Validate(j).error[|Issues(o) + Issues(s)|] == f.error[0];
  }

  /** Keys the schema does not declare neither help nor hurt: adding one to a
      top-level object leaves the verdict and the result unchanged. */
  lemma UnknownKeysIgnored(m: map<string, Json>, k: string, v: Json)
    requires k !in TopLevelKeys
    ensures Validate(JObj(m[k := v])) == Validate(JObj(m))
  {
    var j, j' := JObj(m), JObj(m[k := v]);
    assert Get(j', KeyOverall) == Get(j, KeyOverall);
    assert Get(j', KeyScores) == Get(j, KeyScores);
    assert Get(j', KeyFeedback) == Get(j, KeyFeedback);
  }
}
