/**
 * GET /api/analytics (app/api/analytics/route.js). From one newest-first page
 * of stored evaluations it computes, in one request:
 *  - `timeSeries`: the same records oldest first, one point each;
 *  - `aggregates`: the summary of all of them (see module Averages);
 *  - `buckets`: the records grouped by the start of their hour or day, one
 *    summary per group, in ascending order of the group's start.
 * Timestamps are epoch milliseconds; hours and days are taken in UTC.
 */
module Analytics {
  import opened Wrappers
  import opened JsonData
  import opened Records
  import opened Averages
  import Validator

  const DefaultLimit: int := 50
  const MaxLimit: int := 200

  /** `Math.min(200, limit || 50)`: the page size asked of the store. */
  function EffectiveLimit(requested: Option<int>): (limit: int)
    ensures limit <= MaxLimit
    ensures requested.None? ==> limit == DefaultLimit
    ensures requested.Some? ==> limit <= requested.value && (limit == requested.value || limit == MaxLimit)
  {
    var asked := requested.GetOr(DefaultLimit);
    if asked < MaxLimit then asked else MaxLimit
  }

  datatype Granularity = Hour | Day

  /** `groupBy || 'day'`, and only the exact string `hour` selects hours. */
  function ParseGroupBy(param: Option<string>): (g: Granularity)
    ensures g == Hour <==> param == Some("hour")
  {
    if param.GetOr("day") == "hour" then Hour else Day
  }

  const HourMs: int := 3600000
  const DayMs: int := 86400000

  function Width(g: Granularity): int {
    match g
    case Hour => HourMs
    case Day => DayMs
  }

  /** The start of the hour (`setMinutes(0, 0, 0)`) or of the day
      (`startOfDay`) containing instant `t`. */
  function BucketKey(t: int, g: Granularity): (k: int)
    ensures k <= t < k + Width(g)
    ensures k % Width(g) == 0
  {
    match g
    case Hour => t - t % HourMs
    case Day => t - t % DayMs
  }

  /** The start of the hour or day in which the record was created. */
  function KeyOf(d: Evaluation, g: Granularity): (k: int)
    ensures k <= d.createdAt < k + Width(g)
    ensures k % Width(g) == 0
  {
    BucketKey(d.createdAt, g)
  }

  // ---------------------------------------------------------------------------
  // Time series

  datatype Point = Point(ts: int, overallScore: Json, id: nat)

  function PointOf(d: Evaluation): (p: Point)
    ensures p.ts == d.createdAt && p.id == d.id
    ensures ScoreOf(d.result, Overall).Some? ==> p.overallScore == JNum(ScoreOf(d.result, Overall).value)
  {
    Point(d.createdAt, OverallOrNull(d.result), d.id)
  }

  /** `recentDocs.slice().reverse().map(...)`. */
  function TimeSeries(docs: seq<Evaluation>): (ts: seq<Point>)
    ensures |ts| == |docs|
    ensures forall i :: 0 <= i < |docs| ==> ts[i] == PointOf(docs[|docs| - 1 - i])
  {
    if docs == [] then [] else TimeSeries(docs[1..]) + [PointOf(docs[0])]
  }

  /** Because the store returns newest first, the series is oldest first. */
  lemma TimeSeriesAscending(docs: seq<Evaluation>)
    requires NewestFirst(docs)
    ensures forall i, j :: 0 <= i < j < |docs| ==> TimeSeries(docs)[i].ts <= TimeSeries(docs)[j].ts
  {
  }

  /** A record without an overall score appears in the series with null. */
  lemma TimeSeriesNullWhenAbsent(docs: seq<Evaluation>, i: nat)
    requires i < |docs|
    requires Get(docs[|docs| - 1 - i].result, Validator.KeyOverall).None?
    ensures TimeSeries(docs)[i].overallScore == JNull
  {
    var d := docs[|docs| - 1 - i];
    assert PointOf(d).overallScore == JNull;
  }

  // ---------------------------------------------------------------------------
  // Buckets: specification

  /** The running sums and count kept per bucket. */
  datatype Acc = Acc(sumOverall: real, sumEmpathy: real, sumClarity: real, sumProduct: real, n: nat)

  const EmptyAcc := Acc(0.0, 0.0, 0.0, 0.0, 0)

  /** The records whose bucket is `k`, in their original order. */
  function InBucket(docs: seq<Evaluation>, g: Granularity, k: int): (r: seq<Evaluation>)
    ensures |r| <= |docs|
    decreases |docs|
  {
    if docs == [] then []
    else
      var n := |docs| - 1;
      InBucket(docs[..n], g, k) + (if KeyOf(docs[n], g) == k then [docs[n]] else [])
  }

  /** What the bucket `k` holds once every record has been added. */
  function Tally(docs: seq<Evaluation>, g: Granularity, k: int): Acc {
    var b := InBucket(docs, g, k);
    Acc(Sum(b, Overall), Sum(b, Empathy), Sum(b, Clarity), Sum(b, ProductKnowledge), |b|)
  }

  /** The bucket keys in the order the map first sees them. */
  function KeysInOrder(docs: seq<Evaluation>, g: Granularity): seq<int>
    decreases |docs|
  {
    if docs == [] then []
    else
      var n := |docs| - 1;
      var ks := KeysInOrder(docs[..n], g);
      var k := KeyOf(docs[n], g);
      if k in ks then ks else ks + [k]
  }

  /** No key is entered twice, and every record's key is entered. */
  lemma {:induction false} KeysInOrderProperties(docs: seq<Evaluation>, g: Granularity)
    ensures Distinct(KeysInOrder(docs, g))
    ensures forall i :: 0 <= i < |docs| ==> KeyOf(docs[i], g) in KeysInOrder(docs, g)
    decreases |docs|
  {
    if docs != [] {
      var n := |docs| - 1;
      KeysInOrderProperties(docs[..n], g);
      assert forall i :: 0 <= i < n ==> docs[..n][i] == docs[i];
    }
  }

  function TallyMap(docs: seq<Evaluation>, g: Granularity): map<int, Acc> {
    map k | k in KeysInOrder(docs, g) :: Tally(docs, g, k)
  }

  predicate Distinct(s: seq<int>) {
    forall i, j :: 0 <= i < j < |s| ==> s[i] != s[j]
  }

  /** Adding record `d` to the bucket it belongs to. */
  function Add(a: Acc, d: Evaluation): Acc {
    Acc(a.sumOverall + Contribution(d, Overall), a.sumEmpathy + Contribution(d, Empathy),
        a.sumClarity + Contribution(d, Clarity), a.sumProduct + Contribution(d, ProductKnowledge),
        a.n + 1)
  }

  lemma SumSnoc(s: seq<Evaluation>, d: Evaluation, f: ScoreField)
    ensures Sum(s + [d], f) == Sum(s, f) + Contribution(d, f)
  {
    assert (s + [d])[..|s|] == s;
  }

  /** One more record changes only its own bucket, by `Add`. */
  lemma TallyStep(p: seq<Evaluation>, d: Evaluation, g: Granularity, k: int)
    ensures Tally(p + [d], g, k) == if KeyOf(d, g) == k then Add(Tally(p, g, k), d) else Tally(p, g, k)
  {
    assert (p + [d])[..|p|] == p;
    assert (p + [d])[|p|] == d;
    var b := InBucket(p, g, k);
    assert InBucket(p + [d], g, k) == b + (if KeyOf(d, g) == k then [d] else []);
    if KeyOf(d, g) != k {
      assert b + [] == b;
    } else {
      SumSnoc(b, d, Overall);
      SumSnoc(b, d, Empathy);
      SumSnoc(b, d, Clarity);
      SumSnoc(b, d, ProductKnowledge);
    }
  }

  lemma {:induction false} AbsentKeyEmpty(docs: seq<Evaluation>, g: Granularity, k: int)
    requires k !in KeysInOrder(docs, g)
    ensures InBucket(docs, g, k) == []
    decreases |docs|
  {
    if docs != [] {
      var n := |docs| - 1;
      assert k !in KeysInOrder(docs[..n], g);
      AbsentKeyEmpty(docs[..n], g, k);
    }
  }

  lemma KeysStep(p: seq<Evaluation>, d: Evaluation, g: Granularity)
    ensures KeysInOrder(p + [d], g)
         == if KeyOf(d, g) in KeysInOrder(p, g) then KeysInOrder(p, g) else KeysInOrder(p, g) + [KeyOf(d, g)]
  {
    assert (p + [d])[..|p|] == p;
  }

  /** Every key the map holds has at least one record. */
  lemma {:induction false} KeyHasRecords(docs: seq<Evaluation>, g: Granularity, k: int)
    requires k in KeysInOrder(docs, g)
    ensures |InBucket(docs, g, k)| >= 1
    decreases |docs|
  {
    var n := |docs| - 1;
    if KeyOf(docs[n], g) != k {
      KeyHasRecords(docs[..n], g, k);
    }
  }

  // ---------------------------------------------------------------------------
  // Buckets: the loop

  /** The loop that fills `bucketsMap`: a new key starts an empty bucket (and
      takes the next place in the map's insertion order); every record then
      adds its numeric scores and one to the count of its own bucket. */
  method GroupIntoBuckets(docs: seq<Evaluation>, g: Granularity) returns (order: seq<int>, buckets: map<int, Acc>)
    ensures order == KeysInOrder(docs, g)
    ensures buckets == TallyMap(docs, g)
  {
    order, buckets := [], map[];
    var i := 0;
    while i < |docs|
      invariant 0 <= i <= |docs|
      invariant BucketsAgree(order, buckets, docs[..i], g)
    {
      var d := docs[i];
      var key := KeyOf(d, g);
      BucketsAgreeStep(order, buckets, docs, i, g);
      if key !in buckets {
        buckets := buckets[key := EmptyAcc];
        order := order + [key];
      }
      var acc := AddRecord(buckets[key], d);
      buckets := buckets[key := acc];
      i := i + 1;
    }
    assert docs[..i] == docs;
    TallyMapPointwise(buckets, docs, g);
  }

  /** The loop invariant: the keys seen so far in first-seen order, and each
      bucket holding the tally of the records seen so far. */
  ghost predicate BucketsAgree(order: seq<int>, buckets: map<int, Acc>, seen: seq<Evaluation>, g: Granularity) {
    && order == KeysInOrder(seen, g)
    && (forall k :: k in buckets <==> k in order)
    && (forall k :: k in buckets ==> buckets[k] == Tally(seen, g, k))
  }

  /** One iteration of the loop keeps `BucketsAgree`. */
  lemma BucketsAgreeStep(order: seq<int>, buckets: map<int, Acc>, docs: seq<Evaluation>, i: nat, g: Granularity)
    requires i < |docs|
    requires BucketsAgree(order, buckets, docs[..i], g)
    ensures var key := KeyOf(docs[i], g);
            var b := if key in buckets then buckets else buckets[key := EmptyAcc];
            var o := if key in buckets then order else order + [key];
            BucketsAgree(o, b[key := Add(b[key], docs[i])], docs[..i + 1], g)
  {
    assert docs[..i + 1] == docs[..i] + [docs[i]];
    BucketsAgreeSnoc(order, buckets, docs[..i], docs[i], g);
  }

  lemma BucketsAgreeSnoc(order: seq<int>, buckets: map<int, Acc>, seen: seq<Evaluation>, d: Evaluation, g: Granularity)
    requires BucketsAgree(order, buckets, seen, g)
    ensures var key := KeyOf(d, g);
            var b := if key in buckets then buckets else buckets[key := EmptyAcc];
            var o := if key in buckets then order else order + [key];
            BucketsAgree(o, b[key := Add(b[key], d)], seen + [d], g)
  {
    var key := KeyOf(d, g);
    KeysStep(seen, d, g);
    if key in buckets {
      BucketsStep(buckets, seen, d, g);
    } else {
      AbsentKeyEmpty(seen, g, key);
      BucketsStep(buckets[key := EmptyAcc], seen, d, g);
    }
  }

  lemma TallyMapPointwise(buckets: map<int, Acc>, docs: seq<Evaluation>, g: Granularity)
    requires forall k :: k in buckets <==> k in KeysInOrder(docs, g)
    requires forall k :: k in buckets ==> buckets[k] == Tally(docs, g, k)
    ensures buckets == TallyMap(docs, g)
  {
  }

  /** The in-place update of one bucket: each numeric score is added to its
      sum, and the count goes up by one. */
  method AddRecord(bucket: Acc, d: Evaluation) returns (acc: Acc)
    ensures acc == Add(bucket, d)
  {
    acc := bucket;
    var o, e, c, p := ScoreOf(d.result, Overall), ScoreOf(d.result, Empathy),
                      ScoreOf(d.result, Clarity), ScoreOf(d.result, ProductKnowledge);
    if o.Some? { acc := acc.(sumOverall := acc.sumOverall + o.value); }
    if e.Some? { acc := acc.(sumEmpathy := acc.sumEmpathy + e.value); }
    if c.Some? { acc := acc.(sumClarity := acc.sumClarity + c.value); }
    if p.Some? { acc := acc.(sumProduct := acc.sumProduct + p.value); }
    acc := acc.(n := acc.n + 1);
  }

  /** The invariant of the bucket loop survives one record. */
  lemma BucketsStep(buckets: map<int, Acc>, before: seq<Evaluation>, d: Evaluation, g: Granularity)
    requires KeyOf(d, g) in buckets
    requires buckets[KeyOf(d, g)] == Tally(before, g, KeyOf(d, g))
    requires forall k :: k in buckets ==> buckets[k] == Tally(before, g, k)
    ensures forall k :: k in buckets ==>
      buckets[KeyOf(d, g) := Add(buckets[KeyOf(d, g)], d)][k] == Tally(before + [d], g, k)
  {
    forall k | k in buckets
      ensures buckets[KeyOf(d, g) := Add(buckets[KeyOf(d, g)], d)][k] == Tally(before + [d], g, k)
    {
      TallyStep(before, d, g, k);
    }
  }

  // ---------------------------------------------------------------------------
  // Buckets: sorted emission

  datatype Bucket = Bucket(
    key: int,
    count: nat,
    avgOverall: Option<real>,
    avgEmpathy: Option<real>,
    avgClarity: Option<real>,
    avgProductKnowledge: Option<real>)

  /** One entry of the output: `val.n ? sum / n : null` per field. */
  function ToBucket(k: int, a: Acc): Bucket {
    Bucket(k, a.n, Mean(a.sumOverall, a.n), Mean(a.sumEmpathy, a.n),
           Mean(a.sumClarity, a.n), Mean(a.sumProduct, a.n))
  }

  predicate Ascending(s: seq<int>) {
    forall i, j :: 0 <= i < j < |s| ==> s[i] <= s[j]
  }

  predicate StrictlyAscending(s: seq<int>) {
    forall i, j :: 0 <= i < j < |s| ==> s[i] < s[j]
  }

  function Insert(x: int, s: seq<int>): (r: seq<int>)
    ensures multiset(r) == multiset(s) + multiset{x}
  {
    if s == [] then [x]
    else if x <= s[0] then [x] + s
    else
      assert s == [s[0]] + s[1..];
      [s[0]] + Insert(x, s[1..])
  }

  /** The comparator sort of the map's entries, by key. */
  function SortAscending(s: seq<int>): (r: seq<int>)
    ensures multiset(r) == multiset(s)
  {
    if s == [] then []
    else
      assert s == [s[0]] + s[1..];
      Insert(s[0], SortAscending(s[1..]))
  }

  /** Every element `Insert` adds beyond the first is `x` or came from `s`. */
  lemma InsertMembers(x: int, s: seq<int>, y: int)
    requires y in Insert(x, s)
    ensures y == x || y in s
  {
    assert y in multiset(Insert(x, s));
  }

  lemma {:induction false} InsertAscending(x: int, s: seq<int>)
    requires Ascending(s)
    ensures Ascending(Insert(x, s))
  {
    if s != [] && x > s[0] {
      var rest := Insert(x, s[1..]);
      InsertAscending(x, s[1..]);
      forall j | 0 <= j < |rest| ensures s[0] <= rest[j] {
        InsertMembers(x, s[1..], rest[j]);
      }
      assert Insert(x, s) == [s[0]] + rest;
    }
  }

  lemma {:induction false} InsertStrictlyAscending(x: int, s: seq<int>)
    requires StrictlyAscending(s) && x !in s
    ensures StrictlyAscending(Insert(x, s))
  {
    if s != [] && x > s[0] {
      var rest := Insert(x, s[1..]);
      InsertStrictlyAscending(x, s[1..]);
      forall j | 0 <= j < |rest| ensures s[0] < rest[j] {
        InsertMembers(x, s[1..], rest[j]);
      }
      assert Insert(x, s) == [s[0]] + rest;
    }
  }

  /** The sort orders its input, strictly when no key repeats. */
  lemma {:induction false} SortAscendingSorted(s: seq<int>)
    ensures Ascending(SortAscending(s))
    ensures Distinct(s) ==> StrictlyAscending(SortAscending(s))
  {
    if s != [] {
      var rest := SortAscending(s[1..]);
      SortAscendingSorted(s[1..]);
      InsertAscending(s[0], rest);
      if Distinct(s) {
        assert Distinct(s[1..]) by {
          forall i, j | 0 <= i < j < |s[1..]| ensures s[1..][i] != s[1..][j] {
            assert s[1..][i] == s[i + 1] && s[1..][j] == s[j + 1];
          }
        }
        assert s[0] !in rest by {
          forall m | 0 <= m < |s[1..]| ensures s[1..][m] != s[0] {
            assert s[1..][m] == s[m + 1];
          }
          assert s[0] !in multiset(s[1..]);
        }
        InsertStrictlyAscending(s[0], rest);
      }
    }
  }

  function Emit(keys: seq<int>, m: map<int, Acc>): (bs: seq<Bucket>)
    requires forall k :: k in keys ==> k in m
    ensures |bs| == |keys|
    ensures forall j :: 0 <= j < |keys| ==> bs[j] == ToBucket(keys[j], m[keys[j]])
  {
    if keys == [] then [] else [ToBucket(keys[0], m[keys[0]])] + Emit(keys[1..], m)
  }

  /** `Array.from(bucketsMap.entries()).sort(by key).map(...)`. */
  function EmitBuckets(order: seq<int>, m: map<int, Acc>): (bs: seq<Bucket>)
    requires forall k :: k in order ==> k in m
    ensures |bs| == |order|
    ensures forall j :: 0 <= j < |bs| ==> bs[j].key in order && bs[j] == ToBucket(bs[j].key, m[bs[j].key])
  {
    var sorted := SortAscending(order);
    assert forall k :: k in sorted ==> k in order by {
      forall k | k in sorted ensures k in order { assert k in multiset(sorted); }
    }
    Emit(sorted, m)
  }

  /** The buckets the route returns for `docs`. */
  function BucketSeries(docs: seq<Evaluation>, g: Granularity): (bs: seq<Bucket>)
    ensures bs == [] <==> docs == []
  {
    EmitBuckets(KeysInOrder(docs, g), TallyMap(docs, g))
  }

  // ---------------------------------------------------------------------------
  // Buckets: properties

  /** Two instants share a bucket exactly when they fall in the same
      hour (or day) counted from the epoch. */
  lemma SameBucket(t1: int, t2: int, g: Granularity)
    ensures BucketKey(t1, g) == BucketKey(t2, g) <==> t1 / Width(g) == t2 / Width(g)
  {
    var w := Width(g);
    assert BucketKey(t1, g) == w * (t1 / w);
    assert BucketKey(t2, g) == w * (t2 / w);
    if t1 / w != t2 / w {
      assert w * (t1 / w) != w * (t2 / w);
    }
  }

  /** A bucket's start is its own bucket. */
  lemma BucketKeyIdempotent(t: int, g: Granularity)
    ensures BucketKey(BucketKey(t, g), g) == BucketKey(t, g)
  {
  }

  /** The emitted buckets are in strictly ascending order of their start,
      so no hour or day appears twice. */
  lemma BucketSeriesAscending(docs: seq<Evaluation>, g: Granularity)
    ensures var bs := BucketSeries(docs, g);
            forall i, j :: 0 <= i < j < |bs| ==> bs[i].key < bs[j].key
  {
    KeysInOrderProperties(docs, g);
    SortAscendingSorted(KeysInOrder(docs, g));
  }

  /** The summary that a bucket reports, in the shape of the aggregates. */
  function BucketSummary(b: Bucket): Summary {
    Summary(b.count, b.avgOverall, b.avgEmpathy, b.avgClarity, b.avgProductKnowledge)
  }

  lemma SortedKeyIsKey(docs: seq<Evaluation>, g: Granularity, j: nat)
    requires j < |SortAscending(KeysInOrder(docs, g))|
    ensures SortAscending(KeysInOrder(docs, g))[j] in KeysInOrder(docs, g)
  {
    var sorted := SortAscending(KeysInOrder(docs, g));
    assert sorted[j] in multiset(sorted);
  }

  /** Each bucket is the start of a real hour or day, holds at least one
      record, and reports exactly the aggregates of the records in it. */
  lemma BucketIsSummaryOfItsRecords(docs: seq<Evaluation>, g: Granularity, j: nat)
    requires j < |BucketSeries(docs, g)|
    ensures var b := BucketSeries(docs, g)[j];
            && b.key % Width(g) == 0
            && b.count >= 1
            && BucketSummary(b) == Summarize(InBucket(docs, g, b.key))
  {
    SortedKeyIsKey(docs, g, j);
    var k := SortAscending(KeysInOrder(docs, g))[j];
    KeyHasRecords(docs, g, k);
    KeyIsBucketStart(docs, g, k);
  }

  lemma {:induction false} KeyIsBucketStart(docs: seq<Evaluation>, g: Granularity, k: int)
    requires k in KeysInOrder(docs, g)
    ensures k % Width(g) == 0
    decreases |docs|
  {
    var n := |docs| - 1;
    if KeyOf(docs[n], g) != k {
      KeyIsBucketStart(docs[..n], g, k);
    }
  }

  /** A bucket holds exactly the records whose key is its own, so no record
      is in two buckets. */
  lemma {:induction false} InBucketMembers(docs: seq<Evaluation>, g: Granularity, k: int, d: Evaluation)
    ensures d in InBucket(docs, g, k) <==> d in docs && KeyOf(d, g) == k
    decreases |docs|
  {
    if docs != [] {
      var n := |docs| - 1;
      InBucketMembers(docs[..n], g, k, d);
      assert docs == docs[..n] + [docs[n]];
    }
  }

  /** Every record is counted in the bucket of its own hour or day. */
  lemma EveryRecordHasABucket(docs: seq<Evaluation>, g: Granularity, i: nat)
    requires i < |docs|
    ensures exists j :: 0 <= j < |BucketSeries(docs, g)| && BucketSeries(docs, g)[j].key == KeyOf(docs[i], g)
  {
    KeysInOrderProperties(docs, g);
    var ks := KeysInOrder(docs, g);
    var sorted := SortAscending(ks);
    assert KeyOf(docs[i], g) in multiset(sorted);
    var j :| 0 <= j < |sorted| && sorted[j] == KeyOf(docs[i], g);
    assert BucketSeries(docs, g)[j].key == sorted[j];
  }

  /** The counts of all buckets. */
  function TotalCount(bs: seq<Bucket>): nat {
    if bs == [] then 0 else bs[0].count + TotalCount(bs[1..])
  }

  /** The number of records in the buckets `keys`. */
  function RecordsIn(keys: seq<int>, docs: seq<Evaluation>, g: Granularity): nat {
    if keys == [] then 0 else |InBucket(docs, g, keys[0])| + RecordsIn(keys[1..], docs, g)
  }

  lemma {:induction false} RecordsInAppend(a: seq<int>, b: seq<int>, docs: seq<Evaluation>, g: Granularity)
    ensures RecordsIn(a + b, docs, g) == RecordsIn(a, docs, g) + RecordsIn(b, docs, g)
  {
    if a == [] {
      assert a + b == b;
    } else {
      assert (a + b)[1..] == a[1..] + b;
      RecordsInAppend(a[1..], b, docs, g);
    }
  }

  lemma {:induction false} RecordsInInsert(x: int, s: seq<int>, docs: seq<Evaluation>, g: Granularity)
    ensures RecordsIn(Insert(x, s), docs, g) == |InBucket(docs, g, x)| + RecordsIn(s, docs, g)
  {
    if s != [] && x > s[0] {
      RecordsInInsert(x, s[1..], docs, g);
      assert ([s[0]] + Insert(x, s[1..]))[1..] == Insert(x, s[1..]);
    } else {
      assert ([x] + s)[1..] == s;
    }
  }

  lemma {:induction false} RecordsInSorted(s: seq<int>, docs: seq<Evaluation>, g: Granularity)
    ensures RecordsIn(SortAscending(s), docs, g) == RecordsIn(s, docs, g)
  {
    if s != [] {
      RecordsInSorted(s[1..], docs, g);
      RecordsInInsert(s[0], SortAscending(s[1..]), docs, g);
    }
  }

  /** One more record adds one to the buckets that contain its key. */
  lemma {:induction false} RecordsInStep(keys: seq<int>, p: seq<Evaluation>, d: Evaluation, g: Granularity)
    requires Distinct(keys)
    ensures RecordsIn(keys, p + [d], g) == RecordsIn(keys, p, g) + (if KeyOf(d, g) in keys then 1 else 0)
  {
    if keys != [] {
      var k := keys[0];
      assert (p + [d])[..|p|] == p;
      assert (p + [d])[|p|] == d;
      assert InBucket(p + [d], g, k) == InBucket(p, g, k) + (if KeyOf(d, g) == k then [d] else []);
      assert Distinct(keys[1..]) by {
        forall a, b | 0 <= a < b < |keys[1..]| ensures keys[1..][a] != keys[1..][b] {
          assert keys[1..][a] == keys[a + 1] && keys[1..][b] == keys[b + 1];
        }
      }
      RecordsInStep(keys[1..], p, d, g);
      if KeyOf(d, g) == k {
        assert k !in keys[1..] by {
          forall m | 0 <= m < |keys[1..]| ensures keys[1..][m] != k {
            assert keys[1..][m] == keys[m + 1];
          }
        }
      } else {
        assert KeyOf(d, g) in keys <==> KeyOf(d, g) in keys[1..];
      }
    }
  }

  lemma {:induction false} RecordsInKeys(docs: seq<Evaluation>, g: Granularity)
    ensures RecordsIn(KeysInOrder(docs, g), docs, g) == |docs|
    decreases |docs|
  {
    if docs != [] {
      var n := |docs| - 1;
      var p, d := docs[..n], docs[n];
      assert docs == p + [d];
      var ks := KeysInOrder(p, g);
      var key := KeyOf(d, g);
      RecordsInKeys(p, g);
      KeysStep(p, d, g);
      KeysInOrderProperties(p, g);
      RecordsInStep(ks, p, d, g);
      if key !in ks {
        RecordsInAppend(ks, [key], docs, g);
        AbsentKeyEmpty(p, g, key);
        assert InBucket(docs, g, key) == [d];
        assert RecordsIn([key], docs, g) == 1;
      }
    }
  }

  lemma {:induction false} TotalCountEmit(keys: seq<int>, docs: seq<Evaluation>, g: Granularity)
    requires forall k :: k in keys ==> k in KeysInOrder(docs, g)
    ensures TotalCount(Emit(keys, TallyMap(docs, g))) == RecordsIn(keys, docs, g)
  {
    if keys != [] {
      TotalCountEmit(keys[1..], docs, g);
      assert Emit(keys, TallyMap(docs, g))[1..] == Emit(keys[1..], TallyMap(docs, g));
    }
  }

  /** The bucket counts add up to the number of records: every record is
      counted once, in one bucket. */
  lemma BucketCountsTotal(docs: seq<Evaluation>, g: Granularity)
    ensures TotalCount(BucketSeries(docs, g)) == |docs|
  {
    var ks := KeysInOrder(docs, g);
    var sorted := SortAscending(ks);
    forall k | k in sorted ensures k in ks {
      assert k in multiset(sorted);
    }
    TotalCountEmit(sorted, docs, g);
    RecordsInSorted(ks, docs, g);
    RecordsInKeys(docs, g);
  }

  /** 14:10 and 14:50 UTC on 2025-11-23 fall in one hourly bucket that
      starts at 14:00. */
  lemma ExampleSameHour(a: Evaluation, b: Evaluation)
    requires a.createdAt == 1763909400000 && b.createdAt == 1763907000000
    ensures var bs := BucketSeries([a, b], Hour);
            |bs| == 1 && bs[0].key == 1763906400000 && bs[0].count == 2
  {
    var docs := [a, b];
    assert KeyOf(a, Hour) == 1763906400000;
    assert KeyOf(b, Hour) == 1763906400000;
    assert docs[..1] == [a];
    assert KeysInOrder([a], Hour) == [1763906400000];
    assert KeysInOrder(docs, Hour) == [1763906400000];
    assert InBucket([a], Hour, 1763906400000) == [a];
    assert InBucket(docs, Hour, 1763906400000) == [a, b];
  }

  /** 23:59 on one UTC day and 00:01 on the next fall in two daily buckets,
      emitted earlier day first although the newer record comes first. */
  lemma ExampleMidnight(a: Evaluation, b: Evaluation)
    requires a.createdAt == 1763942460000 && b.createdAt == 1763942340000
    ensures var bs := BucketSeries([a, b], Day);
            && |bs| == 2
            && bs[0].key == 1763856000000 && bs[0].count == 1
            && bs[1].key == 1763942400000 && bs[1].count == 1
  {
    assert KeyOf(a, Day) == 1763942400000;
    assert KeyOf(b, Day) == 1763856000000;
    SeriesOfTwo(a, b, Day);
  }

  /** Two records in different buckets, the newer first: two buckets of one
      record each, the older first. */
  lemma SeriesOfTwo(a: Evaluation, b: Evaluation, g: Granularity)
    requires KeyOf(b, g) < KeyOf(a, g)
    ensures var bs := BucketSeries([a, b], g);
            && |bs| == 2
            && bs[0].key == KeyOf(b, g) && bs[0].count == 1
            && bs[1].key == KeyOf(a, g) && bs[1].count == 1
  {
    var ka, kb := KeyOf(a, g), KeyOf(b, g);
    KeysOfTwo(a, b, g);
    SortTwo(ka, kb);
    InBucketsOfTwo(a, b, g);
    assert Tally([a, b], g, kb).n == 1 && Tally([a, b], g, ka).n == 1;
  }

  lemma KeysOfTwo(a: Evaluation, b: Evaluation, g: Granularity)
    requires KeyOf(a, g) != KeyOf(b, g)
    ensures KeysInOrder([a, b], g) == [KeyOf(a, g), KeyOf(b, g)]
  {
    assert [a, b][..1] == [a];
    assert [a][..0] == [];
    assert KeysInOrder([a], g) == [KeyOf(a, g)];
  }

  lemma SortTwo(x: int, y: int)
    requires y < x
    ensures SortAscending([x, y]) == [y, x]
  {
    assert [x, y][1..] == [y];
    assert [y][1..] == [];
  }

  lemma InBucketsOfTwo(a: Evaluation, b: Evaluation, g: Granularity)
    requires KeyOf(a, g) != KeyOf(b, g)
    ensures InBucket([a, b], g, KeyOf(a, g)) == [a]
    ensures InBucket([a, b], g, KeyOf(b, g)) == [b]
  {
    assert [a, b][..1] == [a];
    assert [a][..0] == [];
  }

  // ---------------------------------------------------------------------------
  // The handler

  datatype AnalyticsSnapshot = AnalyticsSnapshot(aggregates: Summary, timeSeries: seq<Point>, buckets: seq<Bucket>)

  /** The body of GET once the store has returned the page `docs`. */
  method Snapshot(docs: seq<Evaluation>, groupByParam: Option<string>) returns (snap: AnalyticsSnapshot)
    ensures snap.timeSeries == TimeSeries(docs)
    ensures snap.aggregates == Summarize(docs)
    ensures snap.buckets == BucketSeries(docs, ParseGroupBy(groupByParam))
    ensures docs == [] ==> snap == AnalyticsSnapshot(Summary(0, None, None, None, None), [], [])
  {
    var g := ParseGroupBy(groupByParam);
    var timeSeries := TimeSeries(docs);
    var aggregates := Aggregate(docs);
    var order, bucketsMap := GroupIntoBuckets(docs, g);
    var buckets := EmitBuckets(order, bucketsMap);
    snap := AnalyticsSnapshot(aggregates, timeSeries, buckets);
  }
}
