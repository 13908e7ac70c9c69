/**
 * The stored evaluation record of models/Evaluation.js, and how the two GET
 * routes read scores out of its loosely typed `result` object.
 */
module Records {
  import opened Wrappers
  import opened JsonData
  import Validator

  /** One stored evaluation. `result` is whatever object was stored: the
      schema declares it as a plain `Object`, so readers cannot assume its
      shape. `userId` is `null` or the truthy value the request carried.
      `createdAt` is the store's timestamp in epoch milliseconds. */
  datatype Evaluation = Evaluation(
    id: nat,
    userId: Json,
    roleplayText: string,
    result: Json,
    modelName: Option<string>,
    createdAt: int)

  datatype ScoreField = Overall | Empathy | Clarity | ProductKnowledge

  /** The number a reader finds for `f`, if `typeof ... === 'number'`:
      `(d.result || {}).overallScore`, or `((d.result || {}).scores || {}).<field>`. */
  function ScoreOf(result: Json, f: ScoreField): (x: Option<real>)
    ensures x.Some? ==> result.JObj?
  {
    var path :=
      match f
      case Overall => Get(result, Validator.KeyOverall)
      case Empathy => SubScore(result, Validator.KeyEmpathy)
      case Clarity => SubScore(result, Validator.KeyClarity)
      case ProductKnowledge => SubScore(result, Validator.KeyProduct);
    if path.Some? && path.value.JNum? then Some(path.value.n) else None
  }

  function SubScore(result: Json, key: string): Option<Json> {
    var s := Get(result, Validator.KeyScores);
    if s.Some? then Get(s.value, key) else None
  }

  /** `d.result?.overallScore ?? null`: whatever value is stored, or null. */
  function OverallOrNull(result: Json): (v: Json)
    ensures v == JNull <==> Get(result, Validator.KeyOverall).None? || Get(result, Validator.KeyOverall) == Some(JNull)
    ensures ScoreOf(result, Overall).Some? ==> v == JNum(ScoreOf(result, Overall).value)
  {
    OrNull(Get(result, Validator.KeyOverall))
  }

  /** `d.result?.scores ?? null`. */
  function ScoresOrNull(result: Json): (v: Json)
    ensures v == JNull <==> Get(result, Validator.KeyScores).None? || Get(result, Validator.KeyScores) == Some(JNull)
    ensures v != JNull ==> Get(result, Validator.KeyScores) == Some(v)
  {
    OrNull(Get(result, Validator.KeyScores))
  }

  /** The store query returns records sorted by `createdAt`, newest first. */
  ghost predicate NewestFirst(docs: seq<Evaluation>) {
    forall i, j :: 0 <= i < j < |docs| ==> docs[i].createdAt >= docs[j].createdAt
  }

  /** A record written by the evaluate route carries a validated result, and
      every reader then finds each of the four scores, in [0, 10]. */
  lemma ConformingScores(result: Json, f: ScoreField)
    requires Validator.Conforms(result)
    ensures ScoreOf(result, f).Some?
    ensures Validator.InRange(ScoreOf(result, f).value)
  {
  }

  /** Reading the stored encoding of a result gives back its scores. */
  lemma ScoresOfStoredResult(r: Validator.ScoreResult)
    ensures ScoreOf(Validator.ToJson(r), Overall) == Some(r.overallScore)
    ensures ScoreOf(Validator.ToJson(r), Empathy) == Some(r.scores.empathy)
    ensures ScoreOf(Validator.ToJson(r), Clarity) == Some(r.scores.clarity)
    ensures ScoreOf(Validator.ToJson(r), ProductKnowledge) == Some(r.scores.productKnowledge)
  {
    var j := Validator.ToJson(r);
    assert Get(j, Validator.KeyScores).Some?;
  }
}

/**
 * The averaging both GET routes perform (app/api/analytics/route.js and the
 * GET handler of app/api/evaluate/route.js): each field's sum runs over the
 * records where that field is a number, and is divided by the number of ALL
 * records. A record that lacks a score therefore counts as 0 for it while
 * still counting in the denominator.
 */
module Averages {
  import opened Wrappers
  import opened JsonData
  import opened Records
  import Validator

  datatype Summary = Summary(
    count: nat,
    avgOverall: Option<real>,
    avgEmpathy: Option<real>,
    avgClarity: Option<real>,
    avgProductKnowledge: Option<real>)

  /** What one record adds to the running sum of `f`. */
  function Contribution(d: Evaluation, f: ScoreField): real {
    match ScoreOf(d.result, f)
    case Some(x) => x
    case None => 0.0
  }

  /** The sum of `f` over the records where it is a number. */
  function Sum(docs: seq<Evaluation>, f: ScoreField): real
    decreases |docs|
  {
    if docs == [] then 0.0
    else Sum(docs[..|docs| - 1], f) + Contribution(docs[|docs| - 1], f)
  }

  /** `n ? sum / n : null` — the mean over `n` records, or null when there are none. */
  function Mean(sum: real, n: nat): (m: Option<real>)
    ensures m.None? <==> n == 0
    ensures m.Some? ==> m.value * (n as real) == sum
  {
    if n == 0 then None else Some(sum / n as real)
  }

  /** The summary of a set of records: `count` is the number of records and
      each average is that field's sum over `count`, null for no records. */
  function Summarize(docs: seq<Evaluation>): (s: Summary)
    ensures s.count == |docs|
    ensures |docs| == 0 <==> s == Summary(0, None, None, None, None)
    ensures |docs| > 0 ==>
      && s.avgOverall.Some? && s.avgOverall.value * (|docs| as real) == Sum(docs, Overall)
      && s.avgEmpathy.Some? && s.avgEmpathy.value * (|docs| as real) == Sum(docs, Empathy)
      && s.avgClarity.Some? && s.avgClarity.value * (|docs| as real) == Sum(docs, Clarity)
      && s.avgProductKnowledge.Some? && s.avgProductKnowledge.value * (|docs| as real) == Sum(docs, ProductKnowledge)
  {
    Summary(|docs|,
      Mean(Sum(docs, Overall), |docs|),
      Mean(Sum(docs, Empathy), |docs|),
      Mean(Sum(docs, Clarity), |docs|),
      Mean(Sum(docs, ProductKnowledge), |docs|))
  }

  /** The loop that both GET routes run over the page of records: four
      sums and a count, then each sum over the count (null for no records). */
  method Aggregate(docs: seq<Evaluation>) returns (agg: Summary)
    ensures agg == Summarize(docs)
  {
    var sumOverall, sumEmpathy, sumClarity, sumProduct := 0.0, 0.0, 0.0, 0.0;
    var count := 0;
    var i := 0;
    while i < |docs|
      invariant 0 <= i <= |docs|
      invariant count == i
      invariant sumOverall == Sum(docs[..i], Overall)
      invariant sumEmpathy == Sum(docs[..i], Empathy)
      invariant sumClarity == Sum(docs[..i], Clarity)
      invariant sumProduct == Sum(docs[..i], ProductKnowledge)
    {
      var d := docs[i];
      assert docs[..i + 1][..i] == docs[..i];
      var o, e, c, p := ScoreOf(d.result, Overall), ScoreOf(d.result, Empathy),
                        ScoreOf(d.result, Clarity), ScoreOf(d.result, ProductKnowledge);
      if o.Some? { sumOverall := sumOverall + o.value; }
      if e.Some? { sumEmpathy := sumEmpathy + e.value; }
      if c.Some? { sumClarity := sumClarity + c.value; }
      if p.Some? { sumProduct := sumProduct + p.value; }
      count := count + 1;
      i := i + 1;
    }
    assert docs[..i] == docs;
    if count == 0 {
      agg := Summary(0, None, None, None, None);
    } else {
      agg := Summary(count,
        Some(sumOverall / count as real), Some(sumEmpathy / count as real),
        Some(sumClarity / count as real), Some(sumProduct / count as real));
    }
  }

  // ---------------------------------------------------------------------------
  // Properties

  predicate AllConform(docs: seq<Evaluation>) {
    forall i :: 0 <= i < |docs| ==> Validator.Conforms(docs[i].result)
  }

  /** Over records whose results passed validation, a field's sum lies
      between 0 and 10 per record. */
  lemma {:induction false} SumBounds(docs: seq<Evaluation>, f: ScoreField)
    requires AllConform(docs)
    ensures 0.0 <= Sum(docs, f) <= 10.0 * (|docs| as real)
    decreases |docs|
  {
    if docs != [] {
      var n := |docs| - 1;
      SumBounds(docs[..n], f);
      ConformingScores(docs[n].result, f);
    }
  }

  /** Hence every average over such records lies in [0, 10]. */
  lemma AveragesInRange(docs: seq<Evaluation>)
    requires AllConform(docs)
    requires |docs| > 0
    ensures var s := Summarize(docs);
      && Validator.InRange(s.avgOverall.value)
      && Validator.InRange(s.avgEmpathy.value)
      && Validator.InRange(s.avgClarity.value)
      && Validator.InRange(s.avgProductKnowledge.value)
  {
    var n := |docs| as real;
    SumBounds(docs, Overall);
    SumBounds(docs, Empathy);
    SumBounds(docs, Clarity);
    SumBounds(docs, ProductKnowledge);
    MeanBounds(Sum(docs, Overall), |docs|);
    MeanBounds(Sum(docs, Empathy), |docs|);
    MeanBounds(Sum(docs, Clarity), |docs|);
    MeanBounds(Sum(docs, ProductKnowledge), |docs|);
  }

  lemma MeanBounds(sum: real, n: nat)
    requires n > 0 && 0.0 <= sum <= 10.0 * (n as real)
    ensures Mean(sum, n).Some? && 0.0 <= Mean(sum, n).value <= 10.0
  {
    var m := sum / n as real;
    assert m * (n as real) == sum;
    if m > 10.0 {
      assert m * (n as real) > 10.0 * (n as real);
    }
  }

  /** A record without a number for `f` leaves that field's sum unchanged but
      still adds one to the count: the average is taken over all records. */
  lemma MissingScoreCountsAsZero(docs: seq<Evaluation>, d: Evaluation, f: ScoreField)
    requires ScoreOf(d.result, f).None?
    ensures Sum(docs + [d], f) == Sum(docs, f)
    ensures Summarize(docs + [d]).count == Summarize(docs).count + 1
  {
    assert (docs + [d])[..|docs|] == docs;
  }

  /** Overall scores 8, 6 and 10 average to 8. */
  lemma ExampleMeanOfThree(a: Evaluation, b: Evaluation, c: Evaluation)
    requires ScoreOf(a.result, Overall) == Some(8.0)
    requires ScoreOf(b.result, Overall) == Some(6.0)
    requires ScoreOf(c.result, Overall) == Some(10.0)
    ensures Summarize([a, b, c]).avgOverall == Some(8.0)
  {
    assert [a][..0] == [];
    assert Sum([a], Overall) == 8.0;
    assert [a, b][..1] == [a];
    assert Sum([a, b], Overall) == 14.0;
    assert [a, b, c][..2] == [a, b];
    assert Sum([a, b, c], Overall) == 24.0;
  }
}
