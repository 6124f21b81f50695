/**
 * One metric series: raw samples, the five-minute rows recomputed from the last day, the raw
 * retention that runs beside it, and the hourly points served from the rows. Values are reals,
 * times integer milliseconds.
 */
module Rollup {
  import opened Basics

  const MINUTE: int := 60_000
  const FIVE: int := 300_000
  const HOUR: int := 3_600_000
  const DAY: int := 86_400_000

  datatype Sample = Sample(ts: int, v: real)

  datatype Row = Row(bucket: int, avg: real, min: real, max: real, n: nat)

  datatype Agg = Agg(sum: real, n: nat, min: real, max: real)

  function Floor(ts: int, width: int): (b: int)
    requires width > 0
    ensures b <= ts < b + width
  {
    ts - ts % width
  }

  /** Taken in the five minutes or the hour that starts at `b`. */
  ghost predicate TakenIn(x: Sample, b: int, width: int)
    requires width > 0
  {
    b % width == 0 && b <= x.ts < b + width
  }

  lemma FloorMeans(x: Sample, b: int)
    ensures Floor(x.ts, FIVE) == b <==> TakenIn(x, b, 300_000)
    ensures Floor(x.ts, HOUR) == b <==> TakenIn(x, b, 3_600_000)
  {
    FiveFloor(x.ts, b);
    HourFloor(x.ts, b);
    hide Floor;
  }

  lemma FiveFloor(ts: int, b: int)
    ensures Floor(ts, 300_000) == b <==> b % 300_000 == 0 && b <= ts < b + 300_000
  {
    var (q, c) := (ts / 300_000, b / 300_000);
    assert ts == 300_000 * q + ts % 300_000 && b == 300_000 * c + b % 300_000;
  }

  lemma HourFloor(ts: int, b: int)
    ensures Floor(ts, 3_600_000) == b <==> b % 3_600_000 == 0 && b <= ts < b + 3_600_000
  {
    var (q, c) := (ts / 3_600_000, b / 3_600_000);
    assert ts == 3_600_000 * q + ts % 3_600_000 && b == 3_600_000 * c + b % 3_600_000;
  }

  function RMin(a: real, b: real): real { if b < a then b else a }

  function RMax(a: real, b: real): real { if b > a then b else a }

  // ---- exact aggregates ----

  function AggOf(samples: seq<Sample>): (a: Agg)
    requires samples != []
    ensures a.n == |samples|
  {
    var x := samples[|samples| - 1].v;
    if |samples| == 1 then Agg(x, 1, x, x) else
      var a := AggOf(samples[..|samples| - 1]);
      Agg(a.sum + x, a.n + 1, RMin(a.min, x), RMax(a.max, x))
  }

  function Sum(samples: seq<Sample>): real { if samples == [] then 0.0 else samples[0].v + Sum(samples[1..]) }

  /** Average, least and greatest value of these samples. */
  ghost predicate Summarises(avg: real, min: real, max: real, samples: seq<Sample>) {
    && samples != [] && avg * |samples| as real == Sum(samples)
    && (exists x <- samples :: x.v == min) && (forall x <- samples :: min <= x.v)
    && (exists x <- samples :: x.v == max) && (forall x <- samples :: x.v <= max)
  }

  lemma {:induction false} SumSnoc(samples: seq<Sample>, x: Sample)
    ensures Sum(samples + [x]) == Sum(samples) + x.v
  {
    if samples == [] {
      assert samples + [x] == [x];
    } else {
      assert (samples + [x])[1..] == samples[1..] + [x];
      SumSnoc(samples[1..], x);
    }
  }

  /** An aggregate is the sum, count, minimum and maximum of its samples. */
  lemma {:induction false} AggMeans(samples: seq<Sample>)
    requires samples != []
    ensures var a := AggOf(samples);
      && a.sum == Sum(samples) && a.n == |samples|
      && (exists x <- samples :: x.v == a.min) && (forall x <- samples :: a.min <= x.v)
      && (exists x <- samples :: x.v == a.max) && (forall x <- samples :: x.v <= a.max)
  {
    var front, x := samples[..|samples| - 1], samples[|samples| - 1];
    assert samples == front + [x];
    SumSnoc(front, x);
    if front == [] {
      assert samples == [x];
    } else {
      AggMeans(front);
      var (a, b) := (AggOf(front), AggOf(samples));
      var lo :| lo in front && lo.v == a.min;
      var hi :| hi in front && hi.v == a.max;
      assert lo in samples && hi in samples && x in samples;
    }
  }

  /** The samples of one period of `width` starting at `b`. */
  function Within(samples: seq<Sample>, b: int, width: int): (r: seq<Sample>)
    requires width > 0
    ensures forall x :: x in r <==> x in samples && Floor(x.ts, width) == b
    ensures |r| <= |samples|
  {
    if samples == [] then [] else
      var front, x := Within(samples[..|samples| - 1], b, width), samples[|samples| - 1];
      assert samples == samples[..|samples| - 1] + [x];
      if Floor(x.ts, width) == b then front + [x] else front
  }

  function Outside(samples: seq<Sample>, b: int, width: int): (r: seq<Sample>)
    requires width > 0
    ensures forall x :: x in r <==> x in samples && Floor(x.ts, width) != b
  {
    if samples == [] then [] else
      var front, x := Outside(samples[..|samples| - 1], b, width), samples[|samples| - 1];
      assert samples == samples[..|samples| - 1] + [x];
      if Floor(x.ts, width) == b then front else front + [x]
  }

  function Plus(a: Agg, b: Agg): Agg { Agg(a.sum + b.sum, a.n + b.n, RMin(a.min, b.min), RMax(a.max, b.max)) }

  /** Aggregates of two parts that make up the whole, either of which may be empty. */
  ghost predicate Parts(whole: seq<Sample>, a: seq<Sample>, b: seq<Sample>) {
    && (whole == [] <==> a == [] && b == [])
    && (whole != [] ==> AggOf(whole) == if a == [] && b != [] then AggOf(b) else if b == [] && a != [] then AggOf(a)
                        else if a != [] && b != [] then Plus(AggOf(a), AggOf(b)) else AggOf(whole))
  }

  lemma {:induction false} AggSplits(samples: seq<Sample>, b: int, width: int)
    requires width > 0
    ensures Parts(samples, Within(samples, b, width), Outside(samples, b, width))
  {
    if samples != [] {
      hide Floor, AggOf, Parts;
      var front, x := samples[..|samples| - 1], samples[|samples| - 1];
      AggSplits(front, b, width);
      assert samples == front + [x];
      PartsMore(front, Within(front, b, width), Outside(front, b, width), x);
    }
  }

  /** A sample more, in one part or the other. */
  lemma {:induction false} PartsMore(whole: seq<Sample>, a: seq<Sample>, b: seq<Sample>, x: Sample)
    requires Parts(whole, a, b)
    ensures Parts(whole + [x], a + [x], b) && Parts(whole + [x], a, b + [x])
  {
    AggAppend(whole, x);
    AggAppend(a, x);
    AggAppend(b, x);
    hide AggOf;
  }

  lemma AggAppend(samples: seq<Sample>, x: Sample)
    ensures AggOf(samples + [x]) == if samples == [] then Agg(x.v, 1, x.v, x.v) else Plus(AggOf(samples), Agg(x.v, 1, x.v, x.v))
  {
    assert (samples + [x])[..|samples|] == samples;
  }

  // ---- five-minute rows ----

  function RowOf(b: int, samples: seq<Sample>): Row
    requires samples != []
  {
    RowFrom(b, AggOf(samples))
  }

  function Average(sum: real, n: nat): real
    requires n > 0
  {
    sum / n as real
  }

  function RowFrom(b: int, a: Agg): Row
    requires a.n > 0
  {
    Row(b, Average(a.sum, a.n), a.min, a.max, a.n)
  }

  /** A row is of its bucket, and its numbers are those of the bucket's samples. */
  ghost predicate RowShows(r: Row, b: int, samples: seq<Sample>) {
    r.bucket == b && r.n == |samples| && Summarises(r.avg, r.min, r.max, samples)
  }

  lemma {:induction false} AverageMeans(samples: seq<Sample>)
    requires samples != []
    ensures var a := AggOf(samples); Summarises(Average(a.sum, a.n), a.min, a.max, samples)
  {
    hide AggOf, Sum, Average;
    var a := AggOf(samples);
    AggMeans(samples);
    AverageTimesCount(a.sum, |samples|);
    assert Average(a.sum, a.n) == Average(a.sum, |samples|);
  }

  lemma {:induction false} RowMeans(b: int, samples: seq<Sample>)
    requires samples != []
    ensures RowShows(RowOf(b, samples), b, samples)
  {
    AverageMeans(samples);
    hide AggOf, Summarises, Average;
  }

  function Since(samples: seq<Sample>, cut: int): (r: seq<Sample>)
    ensures forall x :: x in r <==> x in samples && x.ts >= cut
  {
    if samples == [] then [] else
      var front, x := Since(samples[..|samples| - 1], cut), samples[|samples| - 1];
      assert samples == samples[..|samples| - 1] + [x];
      if x.ts >= cut then front + [x] else front
  }

  /** The first bucket a rollup at `now` recomputes. */
  function Earliest(now: int): int { Floor(now, FIVE) - DAY }

  function BucketsOf(samples: seq<Sample>): (r: set<int>)
    ensures forall b :: b in r <==> exists x <- samples :: Floor(x.ts, FIVE) == b
  {
    set x <- samples :: Floor(x.ts, FIVE)
  }

  function RolledUp(raw: seq<Sample>, rolled: map<int, Row>, now: int): map<int, Row> {
    var recent := Since(raw, Earliest(now));
    map b | b in rolled.Keys + BucketsOf(recent) ::
      if Within(recent, b, FIVE) != [] then RowOf(b, Within(recent, b, FIVE)) else rolled[b]
  }

  /** Rows of the buckets of the last day are replaced by what their samples say; others stay as they are. */
  ghost predicate Refreshed(raw: seq<Sample>, rolled: map<int, Row>, now: int, out: map<int, Row>) {
    var recent := Since(raw, now - now % 300_000 - 86_400_000);
    && (forall b :: b in out <==> b in rolled || exists x <- recent :: TakenIn(x, b, 300_000))
    && (forall b <- out :: if exists x <- recent :: TakenIn(x, b, 300_000) then RowShows(out[b], b, Within(recent, b, 300_000))
                           else out[b] == rolled[b])
  }

  lemma {:induction false} RollupRefreshes(raw: seq<Sample>, rolled: map<int, Row>, now: int)
    ensures Refreshed(raw, rolled, now, RolledUp(raw, rolled, now))
  {
    hide RowOf, RowShows, Since, Within, BucketsOf, Earliest, TakenIn;
    EarliestMeans(now);
    var (recent, out) := (Since(raw, Earliest(now)), RolledUp(raw, rolled, now));
    forall b ensures b in BucketsOf(recent) <==> exists x <- recent :: TakenIn(x, b, 300_000) {
      BucketTaken(recent, b);
    }
    forall b ensures b in BucketsOf(recent) <==> Within(recent, b, FIVE) != [] {
      InBuckets(recent, b);
    }
    forall b | Within(recent, b, FIVE) != [] ensures RowShows(RowOf(b, Within(recent, b, FIVE)), b, Within(recent, b, FIVE)) {
      RowMeans(b, Within(recent, b, FIVE));
    }
  }

  lemma BucketTaken(samples: seq<Sample>, b: int)
    ensures b in BucketsOf(samples) <==> exists x <- samples :: TakenIn(x, b, 300_000)
  {
    hide Floor, TakenIn;
    forall x: Sample ensures Floor(x.ts, FIVE) == b <==> TakenIn(x, b, 300_000) {
      FloorMeans(x, b);
    }
  }

  lemma EarliestMeans(now: int)
    ensures Earliest(now) == now - now % 300_000 - 86_400_000
  {
  }

  /** The rows of the recent buckets are replaced; older ones stay as they are. */
  method RunRollup(raw: seq<Sample>, rolled: map<int, Row>, now: int) returns (out: map<int, Row>)
    ensures out == RolledUp(raw, rolled, now)
    ensures Refreshed(raw, rolled, now, out)
  {
    hide Since, Earliest, Within, AggOf, BucketsOf, RowFrom, RowOf, Bucketed, Floor, Refreshed;
    RollupRefreshes(raw, rolled, now);
    var recent := Since(raw, Earliest(now));
    var groups := GroupByBucket(recent);
    BucketedKeys(recent, groups);
    BucketedRows(recent, groups);
    out := map b | b in rolled.Keys + groups.Keys :: if b in groups then RowFrom(b, groups[b]) else rolled[b];
    SameRows(recent, rolled, groups, out);
  }

  lemma {:induction false} SameRows(recent: seq<Sample>, rolled: map<int, Row>, groups: map<int, Agg>, out: map<int, Row>)
    requires groups.Keys == BucketsOf(recent) && out.Keys == rolled.Keys + groups.Keys
    requires forall b :: b in groups <==> Within(recent, b, FIVE) != []
    requires forall b <- out :: out[b] == if b in groups then RowOf(b, Within(recent, b, FIVE)) else rolled[b]
    ensures out == map b | b in rolled.Keys + BucketsOf(recent) ::
                     if Within(recent, b, FIVE) != [] then RowOf(b, Within(recent, b, FIVE)) else rolled[b]
  {
    hide Within, BucketsOf, RowOf;
  }

  /** One pass over the samples, a running aggregate for each bucket. */
  method GroupByBucket(recent: seq<Sample>) returns (groups: map<int, Agg>)
    ensures Bucketed(recent, groups)
  {
    groups := map[];
    var i := 0;
    assert recent[..0] == [];
    while i < |recent|
      invariant 0 <= i <= |recent| && Bucketed(recent[..i], groups)
    {
      hide Bucketed;
      var x := recent[i];
      var b := Floor(x.ts, FIVE);
      assert recent[..i + 1] == recent[..i] + [x];
      BucketedMore(recent[..i], groups, x);
      groups := groups[b := if b in groups then Plus(groups[b], Agg(x.v, 1, x.v, x.v)) else Agg(x.v, 1, x.v, x.v)];
      i := i + 1;
    }
    assert recent[..|recent|] == recent;
  }

  lemma BucketedRows(recent: seq<Sample>, groups: map<int, Agg>)
    requires Bucketed(recent, groups)
    ensures forall b :: b in groups <==> Within(recent, b, FIVE) != []
    ensures forall b <- groups :: groups[b].n > 0 && RowFrom(b, groups[b]) == RowOf(b, Within(recent, b, FIVE))
  {
    hide Within, Floor;
  }

  ghost predicate Bucketed(samples: seq<Sample>, groups: map<int, Agg>) {
    && (forall b :: b in groups <==> Within(samples, b, FIVE) != [])
    && (forall b <- groups :: groups[b] == AggOf(Within(samples, b, FIVE)))
  }

  lemma {:induction false} BucketedMore(samples: seq<Sample>, groups: map<int, Agg>, x: Sample)
    requires Bucketed(samples, groups)
    ensures var (b, one) := (Floor(x.ts, FIVE), Agg(x.v, 1, x.v, x.v));
      Bucketed(samples + [x], groups[b := if b in groups then Plus(groups[b], one) else one])
  {
    hide Within, AggOf, Floor, Plus;
    var (b, one) := (Floor(x.ts, FIVE), Agg(x.v, 1, x.v, x.v));
    var groups' := groups[b := if b in groups then Plus(groups[b], one) else one];
    AggAppend(Within(samples, b, FIVE), x);
    forall k
      ensures k in groups' <==> Within(samples + [x], k, FIVE) != []
      ensures k in groups' ==> groups'[k] == AggOf(Within(samples + [x], k, FIVE))
    {
      WithinMore(samples, x, k);
    }
  }

  lemma WithinMore(samples: seq<Sample>, x: Sample, k: int)
    ensures Within(samples + [x], k, FIVE)
         == if Floor(x.ts, FIVE) == k then Within(samples, k, FIVE) + [x] else Within(samples, k, FIVE)
  {
    assert (samples + [x])[..|samples|] == samples;
  }

  lemma BucketedKeys(samples: seq<Sample>, groups: map<int, Agg>)
    requires Bucketed(samples, groups)
    ensures groups.Keys == BucketsOf(samples)
  {
    forall b ensures b in groups <==> b in BucketsOf(samples) {
      NothingIn(Within(samples, b, FIVE));
      if Within(samples, b, FIVE) != [] {
        assert Within(samples, b, FIVE)[0] in Within(samples, b, FIVE);
      }
    }
  }

  /** INSERT OR REPLACE on the sample's time. */
  function Put(samples: seq<Sample>, x: Sample): (r: seq<Sample>)
    ensures forall y :: y in r ==> y == x || y in samples
    ensures x in r
  {
    if samples == [] then [x]
    else if samples[|samples| - 1].ts == x.ts then samples[..|samples| - 1] + [x]
    else
      var r := Put(samples[..|samples| - 1], x) + [samples[|samples| - 1]];
      assert x in Put(samples[..|samples| - 1], x);
      r
  }

  // ---- hourly points ----

  function AggFrom(r: Row): Agg { Agg(r.avg * r.n as real, r.n, r.min, r.max) }

  function RowsIn(rows: seq<Row>, h: int): (r: seq<Row>)
    ensures forall x :: x in r <==> x in rows && Floor(x.bucket, HOUR) == h
  {
    if rows == [] then [] else
      var front, x := RowsIn(rows[..|rows| - 1], h), rows[|rows| - 1];
      assert rows == rows[..|rows| - 1] + [x];
      if Floor(x.bucket, HOUR) == h then front + [x] else front
  }

  function Combined(rows: seq<Row>): Agg
    requires rows != []
  {
    var r := rows[|rows| - 1];
    if |rows| == 1 then AggFrom(r) else Plus(Combined(rows[..|rows| - 1]), AggFrom(r))
  }

  datatype Point = Point(ts: int, avg: real, min: real, max: real)

  function PointOf(h: int, a: Agg): Point {
    Point(h, if a.n > 0 then Average(a.sum, a.n) else 0.0, a.min, a.max)
  }

  /** A point of an hour, with the numbers of these samples. */
  ghost predicate PointShows(p: Point, h: int, samples: seq<Sample>) {
    p.ts == h && Summarises(p.avg, p.min, p.max, samples)
  }

  lemma {:induction false} PointMeans(h: int, samples: seq<Sample>)
    requires samples != []
    ensures PointShows(PointOf(h, AggOf(samples)), h, samples)
  {
    AverageMeans(samples);
    hide AggOf, Summarises, Average;
  }

  /** One point per hour that has a row, in the order the hours first appear. */
  method HourlyPoints(rows: seq<Row>) returns (points: seq<Point>)
    ensures forall h :: (exists p <- points :: p.ts == h) <==> RowsIn(rows, h) != []
    ensures forall p <- points :: RowsIn(rows, p.ts) != [] && p == PointOf(p.ts, Combined(RowsIn(rows, p.ts)))
    ensures forall i, j :: 0 <= i < j < |points| ==> points[i].ts != points[j].ts
  {
    var order, groups := GroupByHour(rows);
    points := EmitPoints(order, groups);
    hide RowsIn, Combined, PointOf;
    forall h ensures (exists p <- points :: p.ts == h) <==> h in groups {
      if h in groups {
        var k :| 0 <= k < |order| && order[k] == h;
        assert points[k] in points;
      }
    }
  }

  method GroupByHour(rows: seq<Row>) returns (order: seq<int>, groups: map<int, Agg>)
    ensures Grouped(rows, groups) && (forall h :: h in order <==> h in groups) && Different(order)
  {
    order, groups := [], map[];
    var i := 0;
    assert rows[..0] == [];
    while i < |rows|
      invariant 0 <= i <= |rows| && Grouped(rows[..i], groups)
      invariant (forall h :: h in order <==> h in groups) && Different(order)
    {
      hide Grouped;
      var r := rows[i];
      var h := Floor(r.bucket, HOUR);
      assert rows[..i + 1] == rows[..i] + [r];
      GroupedMore(rows[..i], groups, r);
      if h !in groups {
        order := order + [h];
        groups := groups[h := AggFrom(r)];
      } else {
        groups := groups[h := Plus(groups[h], AggFrom(r))];
      }
      i := i + 1;
    }
    assert rows[..|rows|] == rows;
  }

  ghost predicate Different(order: seq<int>) { forall j, k :: 0 <= j < k < |order| ==> order[j] != order[k] }

  ghost predicate Grouped(rows: seq<Row>, groups: map<int, Agg>) {
    && (forall h :: h in groups <==> RowsIn(rows, h) != [])
    && (forall h <- groups :: groups[h] == Combined(RowsIn(rows, h)))
  }

  lemma {:induction false} GroupedMore(rows: seq<Row>, groups: map<int, Agg>, r: Row)
    requires Grouped(rows, groups)
    ensures var h := Floor(r.bucket, HOUR);
      Grouped(rows + [r], groups[h := if h in groups then Plus(groups[h], AggFrom(r)) else AggFrom(r)])
  {
    hide RowsIn, Combined, Floor, Plus, AggFrom;
    var h := Floor(r.bucket, HOUR);
    var groups' := groups[h := if h in groups then Plus(groups[h], AggFrom(r)) else AggFrom(r)];
    CombinedMore(RowsIn(rows, h), r);
    forall k
      ensures k in groups' <==> RowsIn(rows + [r], k) != []
      ensures k in groups' ==> groups'[k] == Combined(RowsIn(rows + [r], k))
    {
      RowsInMore(rows, r, k);
    }
  }

  lemma RowsInMore(rows: seq<Row>, r: Row, k: int)
    ensures RowsIn(rows + [r], k) == if Floor(r.bucket, HOUR) == k then RowsIn(rows, k) + [r] else RowsIn(rows, k)
  {
    assert (rows + [r])[..|rows|] == rows;
  }

  method EmitPoints(order: seq<int>, groups: map<int, Agg>) returns (points: seq<Point>)
    requires forall h <- order :: h in groups
    ensures |points| == |order| && forall k :: 0 <= k < |points| ==> points[k] == PointOf(order[k], groups[order[k]])
  {
    points := [];
    for j := 0 to |order|
      invariant |points| == j && forall k :: 0 <= k < j ==> points[k] == PointOf(order[k], groups[order[k]])
    {
      points := points + [PointOf(order[j], groups[order[j]])];
    }
  }

  lemma CombinedMore(rows: seq<Row>, r: Row)
    ensures Combined(rows + [r]) == if rows == [] then AggFrom(r) else Plus(Combined(rows), AggFrom(r))
  {
    assert (rows + [r])[..|rows|] == rows;
  }

  // ---- hourly points are exact ----

  lemma {:induction false} OutsideWithin(samples: seq<Sample>, b: int, c: int)
    requires b != c
    ensures Within(Outside(samples, b, FIVE), c, FIVE) == Within(samples, c, FIVE)
  {
    if samples != [] {
      hide Floor;
      var front, x := samples[..|samples| - 1], samples[|samples| - 1];
      OutsideWithin(front, b, c);
      if Floor(x.ts, FIVE) != b {
        assert Outside(samples, b, FIVE) == Outside(front, b, FIVE) + [x];
        assert (Outside(front, b, FIVE) + [x])[..|Outside(front, b, FIVE)|] == Outside(front, b, FIVE);
      }
    }
  }

  lemma AverageTimesCount(sum: real, n: nat)
    requires n > 0
    ensures Average(sum, n) * n as real == sum
  {
  }

  lemma {:induction false} RowAggregates(b: int, samples: seq<Sample>)
    requires samples != []
    ensures AggFrom(RowOf(b, samples)) == AggOf(samples)
  {
    AverageTimesCount(AggOf(samples).sum, |samples|);
  }

  ghost predicate OwnBuckets(rows: seq<Row>) { forall i, j :: 0 <= i < j < |rows| ==> rows[i].bucket != rows[j].bucket }

  /** Each row aggregates its bucket, and no sample is left without a row. */
  ghost predicate RowsCover(rows: seq<Row>, samples: seq<Sample>) {
    && OwnBuckets(rows)
    && (forall r <- rows :: Within(samples, r.bucket, FIVE) != [] && r == RowOf(r.bucket, Within(samples, r.bucket, FIVE)))
    && (forall x <- samples :: exists r <- rows :: r.bucket == Floor(x.ts, FIVE))
  }

  lemma {:induction false} CoverShrinks(rows: seq<Row>, samples: seq<Sample>)
    requires rows != [] && RowsCover(rows, samples)
    ensures RowsCover(rows[..|rows| - 1], Outside(samples, rows[|rows| - 1].bucket, FIVE))
  {
    hide Floor, RowOf;
    var front, last := rows[..|rows| - 1], rows[|rows| - 1];
    var rest := Outside(samples, last.bucket, FIVE);
    forall r | r in front ensures Within(rest, r.bucket, FIVE) == Within(samples, r.bucket, FIVE) {
      assert r.bucket != last.bucket;
      OutsideWithin(samples, last.bucket, r.bucket);
    }
    assert rows == front + [last];
  }

  lemma {:induction false} CombinedExact(rows: seq<Row>, samples: seq<Sample>)
    requires rows != [] && RowsCover(rows, samples)
    ensures samples != [] && Combined(rows) == AggOf(samples)
    decreases |rows|
  {
    hide Floor, RowOf, AggFrom;
    var front, last := rows[..|rows| - 1], rows[|rows| - 1];
    var (own, rest) := (Within(samples, last.bucket, FIVE), Outside(samples, last.bucket, FIVE));
    assert last in rows;
    RowAggregates(last.bucket, own);
    AggSplits(samples, last.bucket, FIVE);
    CoverShrinks(rows, samples);
    if front == [] {
      NoSamples(rest);
    } else {
      CombinedExact(front, rest);
    }
    PlusCommutes(AggOf(own), if rest == [] then AggOf(own) else AggOf(rest));
  }

  lemma NoSamples(samples: seq<Sample>)
    requires RowsCover([], samples)
    ensures samples == []
  {
    NothingIn(samples);
  }

  lemma PlusCommutes(a: Agg, b: Agg)
    ensures Plus(a, b) == Plus(b, a)
  {
  }

  lemma HourOfBucket(ts: int)
    ensures Floor(Floor(ts, FIVE), HOUR) == Floor(ts, HOUR)
  {
    var (j, k) := (ts / HOUR, ts / FIVE);
    assert Floor(ts, HOUR) == HOUR * j && Floor(ts, FIVE) == FIVE * k;
    assert 12 * j <= k < 12 * j + 12;
    assert HOUR * j <= FIVE * k < HOUR * j + HOUR;
    assert FIVE * k / HOUR == j;
  }

  lemma {:induction false} WithinHour(samples: seq<Sample>, h: int, b: int)
    requires Floor(b, HOUR) == h
    ensures Within(Within(samples, h, HOUR), b, FIVE) == Within(samples, b, FIVE)
  {
    if samples != [] {
      var front, x := samples[..|samples| - 1], samples[|samples| - 1];
      WithinHour(front, h, b);
      HourOfBucket(x.ts);
      hide Floor;
      if Floor(x.ts, HOUR) == h {
        assert (Within(front, h, HOUR) + [x])[..|Within(front, h, HOUR)|] == Within(front, h, HOUR);
      }
    }
  }

  lemma {:induction false} RowsInDistinct(rows: seq<Row>, h: int)
    requires OwnBuckets(rows)
    ensures OwnBuckets(RowsIn(rows, h))
  {
    if rows != [] {
      RowsInDistinct(rows[..|rows| - 1], h);
      var front := rows[..|rows| - 1];
      forall r | r in RowsIn(front, h) ensures r.bucket != rows[|rows| - 1].bucket {
        assert r in front;
      }
    }
  }

  /** The hour is computed exactly from its five-minute rows. */
  lemma {:induction false} HourExact(rows: seq<Row>, samples: seq<Sample>, h: int)
    requires RowsCoverHour(rows, samples, h) && RowsIn(rows, h) != []
    ensures Within(samples, h, HOUR) != [] && Combined(RowsIn(rows, h)) == AggOf(Within(samples, h, HOUR))
  {
    hide Floor, RowOf;
    var (mine, own) := (RowsIn(rows, h), Within(samples, h, HOUR));
    RowsInDistinct(rows, h);
    forall r | r in mine ensures Within(own, r.bucket, FIVE) == Within(samples, r.bucket, FIVE) {
      WithinHour(samples, h, r.bucket);
    }
    forall x | x in own ensures exists r <- mine :: r.bucket == Floor(x.ts, FIVE) {
      HourOfBucket(x.ts);
    }
    CombinedExact(mine, own);
  }

  /** As far as one hour is concerned. */
  ghost predicate RowsCoverHour(rows: seq<Row>, samples: seq<Sample>, h: int) {
    && OwnBuckets(rows)
    && (forall r <- rows :: Floor(r.bucket, HOUR) == h ==>
          Within(samples, r.bucket, FIVE) != [] && r == RowOf(r.bucket, Within(samples, r.bucket, FIVE)))
    && (forall x <- samples :: Floor(x.ts, HOUR) == h ==> exists r <- rows :: r.bucket == Floor(x.ts, FIVE))
  }

  // ---- rollup beside retention ----

  /** `ever` is every sample ever stored, the latest value for each time. */
  datatype Series = Series(raw: seq<Sample>, rolled: map<int, Row>, ever: seq<Sample>)

  datatype Days = Days(raw: int, rollup: int)

  /** Raw samples before this go. */
  function RawCut(days: Days, now: int): int { now - days.raw * DAY }

  lemma RawCutGrows(days: Days, now: int, later: int)
    requires now <= later
    ensures RawCut(days, now) <= RawCut(days, later)
  {
  }

  lemma RawCutBefore(days: Days, now: int)
    requires days.raw >= 2
    ensures RawCut(days, now) <= now - 2 * DAY && RawCut(days, now) <= Earliest(now)
  {
  }

  datatype Step = Take(x: Sample, now: int) | RollUp(now: int) | Retain(now: int)

  const NOTHING: Series := Series([], map[], [])

  function Next(s: Series, days: Days, step: Step): Series {
    match step
    case Take(x, _) => s.(raw := Put(s.raw, x), ever := Put(s.ever, x))
    case RollUp(now) => s.(rolled := RolledUp(s.raw, s.rolled, now))
    case Retain(now) =>
      s.(raw := Since(s.raw, RawCut(days, now)),
         rolled := map b <- s.rolled | b >= now - days.rollup * DAY :: s.rolled[b])
  }

  /** What retention leaves: raw samples and rows by their own days. */
  lemma {:induction false} RetainedByDays(s: Series, days: Days, now: int)
    ensures var s' := Next(s, days, Retain(now));
      && (forall x :: x in s'.raw <==> x in s.raw && x.ts >= now - days.raw * 86_400_000)
      && (forall b :: b in s'.rolled <==> b in s.rolled && b >= now - days.rollup * 86_400_000)
      && (forall b <- s'.rolled :: s'.rolled[b] == s.rolled[b])
  {
  }

  function Run(days: Days, steps: seq<Step>): Series {
    if steps == [] then NOTHING else Next(Run(days, steps[..|steps| - 1]), days, steps[|steps| - 1])
  }

  ghost predicate Clocked(steps: seq<Step>, t: int) {
    && (forall i, j :: 0 <= i < j < |steps| ==> steps[i].now <= steps[j].now)
    && (forall i :: 0 <= i < |steps| ==> steps[i].now <= t)
  }

  lemma {:induction false} SinceSince(samples: seq<Sample>, a: int, b: int)
    requires a <= b
    ensures Since(Since(samples, a), b) == Since(samples, b)
  {
    if samples != [] {
      var front, x := samples[..|samples| - 1], samples[|samples| - 1];
      SinceSince(front, a, b);
      if x.ts >= a {
        assert (Since(front, a) + [x])[..|Since(front, a)|] == Since(front, a);
      }
    }
  }

  lemma {:induction false} SincePut(samples: seq<Sample>, x: Sample, cut: int)
    ensures Since(Put(samples, x), cut) == if x.ts < cut then Since(samples, cut) else Put(Since(samples, cut), x)
  {
    if samples == [] {
      assert [x][..0] == [];
    } else {
      var front, last := samples[..|samples| - 1], samples[|samples| - 1];
      if last.ts == x.ts {
        assert (front + [x])[..|front|] == front;
        assert (Since(front, cut) + [last])[..|Since(front, cut)|] == Since(front, cut);
      } else {
        SincePut(front, x, cut);
        assert (Put(front, x) + [last])[..|Put(front, x)|] == Put(front, x);
        assert (Since(front, cut) + [last])[..|Since(front, cut)|] == Since(front, cut);
      }
    }
  }

  lemma {:induction false} WithinSince(samples: seq<Sample>, b: int, cut: int)
    requires cut <= b
    ensures Within(Since(samples, cut), b, FIVE) == Within(samples, b, FIVE)
  {
    if samples != [] {
      var front, x := samples[..|samples| - 1], samples[|samples| - 1];
      WithinSince(front, b, cut);
      if x.ts >= cut {
        assert (Since(front, cut) + [x])[..|Since(front, cut)|] == Since(front, cut);
      }
    }
  }

  ghost predicate Agrees(s: Series, cut: int) { Since(s.raw, cut) == Since(s.ever, cut) }

  lemma AgreesLater(s: Series, cut: int, later: int)
    requires Agrees(s, cut) && cut <= later
    ensures Agrees(s, later)
  {
    SinceSince(s.raw, cut, later);
    SinceSince(s.ever, cut, later);
  }

  /** Raw retention has not touched anything from `t` minus the raw days on. */
  lemma {:induction false} RecentRawIntact(days: Days, steps: seq<Step>, t: int)
    requires Clocked(steps, t)
    ensures Agrees(Run(days, steps), RawCut(days, t))
  {
    if steps != [] {
      hide Agrees, Next, Clocked, RawCut;
      var front, step := steps[..|steps| - 1], steps[|steps| - 1];
      ClockedFront(steps, t);
      RawCutGrows(days, step.now, t);
      RecentRawIntact(days, front, step.now);
      StepKeepsRecent(Run(days, front), days, step, RawCut(days, step.now));
      AgreesLater(Run(days, steps), RawCut(days, step.now), RawCut(days, t));
    }
  }

  lemma ClockedFront(steps: seq<Step>, t: int)
    requires Clocked(steps, t) && steps != []
    ensures Clocked(steps[..|steps| - 1], steps[|steps| - 1].now) && steps[|steps| - 1].now <= t
  {
  }

  lemma {:induction false} StepKeepsRecent(s: Series, days: Days, step: Step, cut: int)
    requires Agrees(s, cut) && cut == RawCut(days, step.now)
    ensures Agrees(Next(s, days, step), cut)
  {
    hide Since, RolledUp, RawCut;
    match step {
      case Take(x, _) =>
        SincePut(s.raw, x, cut);
        SincePut(s.ever, x, cut);
      case RollUp(_) =>
      case Retain(_) => SinceSince(s.raw, cut, cut);
    }
  }

  /** Every row this rollup writes covers all the samples its bucket ever had. */
  ghost predicate WholeRollup(s: Series, now: int) {
    var recent := Since(s.raw, Earliest(now));
    forall b <- BucketsOf(recent) :: Within(recent, b, FIVE) == Within(s.ever, b, FIVE)
  }

  lemma BucketsRecent(samples: seq<Sample>, now: int)
    ensures forall b <- BucketsOf(Since(samples, Earliest(now))) :: Earliest(now) <= b
  {
  }

  lemma {:induction false} RollupAlwaysWhole(days: Days, steps: seq<Step>, now: int)
    requires days.raw >= 2 && Clocked(steps, now)
    ensures WholeRollup(Run(days, steps), now)
  {
    RecentRawIntact(days, steps, now);
    RawCutBefore(days, now);
    hide Run, Clocked, Since, RawCut;
    WindowWhole(Run(days, steps), RawCut(days, now), now);
  }

  lemma {:induction false} WindowWhole(s: Series, cut: int, now: int)
    requires Since(s.raw, cut) == Since(s.ever, cut) && cut <= Earliest(now)
    ensures WholeRollup(s, now)
  {
    BucketsRecent(s.raw, now);
    hide Floor, Earliest, BucketsOf;
    SinceSince(s.raw, cut, Earliest(now));
    SinceSince(s.ever, cut, Earliest(now));
    forall b | b in BucketsOf(Since(s.raw, Earliest(now)))
      ensures Within(Since(s.raw, Earliest(now)), b, FIVE) == Within(s.ever, b, FIVE)
    {
      WithinSince(s.ever, b, Earliest(now));
    }
  }

  /** One day of raw samples or less: a bucket loses its first minutes just before it is rolled up again. */
  lemma {:induction false} ShortRetentionSplitsBucket(days: Days)
    requires days.raw <= 1
    ensures var start := days.raw * DAY;
      var steps := [Take(Sample(0, 1.0), start), Take(Sample(4 * MINUTE, 3.0), start), Retain(start + 2 * MINUTE)];
      Clocked(steps, start + 2 * MINUTE) && !WholeRollup(Run(days, steps), start + 2 * MINUTE)
  {
    var (start, a, b) := (days.raw * DAY, Sample(0, 1.0), Sample(4 * MINUTE, 3.0));
    var now := start + 2 * MINUTE;
    hide Run, WholeRollup, RawCut, Earliest;
    ShortCut(days);
    var s := ThreeSteps(days, a, b, start, now);
    HalfBucket(s, a, b, now);
  }

  lemma ShortCut(days: Days)
    requires days.raw <= 1
    ensures var now := days.raw * DAY + 2 * MINUTE; RawCut(days, now) == 2 * MINUTE && Earliest(now) <= 0
  {
  }

  lemma {:induction false} HalfBucket(s: Series, a: Sample, b: Sample, now: int)
    requires s.raw == [b] && s.ever == [b, a] && a.ts == 0 && b.ts == 4 * MINUTE && Earliest(now) <= 0
    ensures !WholeRollup(s, now)
  {
    SinceOne(b, Earliest(now));
    assert Floor(a.ts, FIVE) == 0 && Floor(b.ts, FIVE) == 0;
    WithinOne(b);
    assert a in Within([b, a], 0, FIVE);
    assert 0 in BucketsOf([b]) by { assert [b][0] == b; }
    hide Since, Within, BucketsOf, Earliest, Floor;
    assert a !in [b];
  }

  lemma {:induction false} ThreeSteps(days: Days, a: Sample, b: Sample, start: int, now: int) returns (s: Series)
    requires a.ts < RawCut(days, now) <= b.ts
    ensures s == Run(days, [Take(a, start), Take(b, start), Retain(now)]) && s.raw == [b] && s.ever == [b, a]
  {
    hide RawCut, Since, RolledUp;
    var (m1, m2, m3) := (Take(a, start), Take(b, start), Retain(now));
    ThreeRun(days, m1, m2, m3);
    s := Run(days, [m1, m2, m3]);
    hide Run;
    assert Put([], a) == [a];
    assert Put([a], b) == [b, a] by { assert [a][..0] == []; }
    SincePair(b, a, RawCut(days, now));
  }

  lemma ThreeRun(days: Days, m1: Step, m2: Step, m3: Step)
    ensures Run(days, [m1, m2, m3]) == Next(Next(Next(NOTHING, days, m1), days, m2), days, m3)
  {
    hide Next;
    assert [m1, m2, m3][..2] == [m1, m2] && [m1, m2][..1] == [m1] && [m1][..0] == [];
    assert Run(days, [m1]) == Next(NOTHING, days, m1);
    assert Run(days, [m1, m2]) == Next(Run(days, [m1]), days, m2);
  }

  lemma SincePair(b: Sample, a: Sample, cut: int)
    requires a.ts < cut <= b.ts
    ensures Since([b, a], cut) == [b]
  {
    assert [b, a][..1] == [b];
    SinceOne(b, cut);
  }

  lemma SinceOne(x: Sample, cut: int)
    requires x.ts >= cut
    ensures Since([x], cut) == [x]
  {
    assert [x][..0] == [];
  }

  lemma WithinOne(x: Sample)
    ensures Within([x], Floor(x.ts, FIVE), FIVE) == [x]
  {
    assert [x][..0] == [];
  }

  /** Rollups never work on partly deleted buckets exactly when at least two days of raw samples are kept. */
  lemma {:induction false} RollupsWholeExactly(days: Days)
    ensures (forall steps, now :: Clocked(steps, now) ==> WholeRollup(Run(days, steps), now)) <==> days.raw >= 2
  {
    if days.raw >= 2 {
      forall steps, now | Clocked(steps, now) ensures WholeRollup(Run(days, steps), now) {
        RollupAlwaysWhole(days, steps, now);
      }
    } else {
      ShortRetentionSplitsBucket(days);
    }
  }

  /** The rows of a series as a query returns them. */
  ghost predicate Lists(rows: seq<Row>, rolled: map<int, Row>) {
    && OwnBuckets(rows) && (forall r :: r in rows <==> r.bucket in rolled && rolled[r.bucket] == r)
  }

  lemma {:induction false} RolledFromSamples(days: Days, steps: seq<Step>)
    ensures var s := Run(days, steps);
      forall b <- s.rolled :: s.rolled[b].bucket == b && exists x <- s.ever :: Floor(x.ts, FIVE) == b
  {
    if steps != [] {
      var front, step := steps[..|steps| - 1], steps[|steps| - 1];
      RolledFromSamples(days, front);
      RawFromEver(days, front);
      var s := Run(days, front);
      if step.Take? {
        forall x | x in s.ever ensures exists y <- Put(s.ever, step.x) :: y.ts == x.ts {
          PutKeepsTimes(s.ever, step.x, x);
        }
      }
    }
  }

  lemma {:induction false} PutKeepsTimes(samples: seq<Sample>, x: Sample, y: Sample)
    requires y in samples
    ensures exists z <- Put(samples, x) :: z.ts == y.ts
  {
    var front, last := samples[..|samples| - 1], samples[|samples| - 1];
    assert samples == front + [last];
    if last.ts == x.ts {
      if y == last {
        assert x in Put(samples, x);
      } else {
        assert y in front + [x];
      }
    } else if y == last {
      assert last in Put(front, x) + [last];
    } else {
      PutKeepsTimes(front, x, y);
    }
  }

  lemma {:induction false} RawFromEver(days: Days, steps: seq<Step>)
    ensures var s := Run(days, steps); forall x <- s.raw :: exists y <- s.ever :: y.ts == x.ts
  {
    if steps != [] {
      var front, step := steps[..|steps| - 1], steps[|steps| - 1];
      RawFromEver(days, front);
      if step.Take? {
        var s := Run(days, front);
        forall x | x in s.ever ensures exists y <- Put(s.ever, step.x) :: y.ts == x.ts {
          PutKeepsTimes(s.ever, step.x, x);
        }
      }
    }
  }

  /**
   * After a rollup every hourly point of the last day is the exact average, minimum and maximum
   * of all samples the hour ever had.
   */
  lemma {:induction false} HourlyPointsExact(days: Days, steps: seq<Step>, now: int, rows: seq<Row>, h: int)
    requires days.raw >= 2 && Clocked(steps, now) && h >= now - now % 300_000 - 86_400_000
    requires Lists(rows, Run(days, steps + [RollUp(now)]).rolled)
    ensures var samples := Within(Run(days, steps).ever, h, HOUR);
      && (forall x :: x in samples <==> x in Run(days, steps).ever && TakenIn(x, h, 3_600_000))
      && (RowsIn(rows, h) != [] <==> samples != [])
      && (samples != [] ==> PointShows(PointOf(h, Combined(RowsIn(rows, h))), h, samples))
  {
    EarliestMeans(now);
    forall x: Sample ensures Floor(x.ts, HOUR) == h <==> TakenIn(x, h, 3_600_000) {
      FloorMeans(x, h);
    }
    var s := Run(days, steps);
    assert (steps + [RollUp(now)])[..|steps|] == steps;
    RollupAlwaysWhole(days, steps, now);
    RolledFromSamples(days, steps);
    RecentRawIntact(days, steps, now);
    RawCutBefore(days, now);
    hide RawCut, Run, Clocked, WholeRollup, RolledUp, Since, Within, Combined, AggOf, PointOf, PointShows;
    RecentAgree(s, RawCut(days, now), now);
    RolledCovers(s, now, rows, h);
    if RowsIn(rows, h) != [] {
      HourExact(rows, s.ever, h);
      PointMeans(h, Within(s.ever, h, HOUR));
    } else {
      NoRowNoSample(rows, s.ever, h);
    }
  }

  lemma RecentAgree(s: Series, cut: int, now: int)
    requires Since(s.raw, cut) == Since(s.ever, cut) && cut <= now - 2 * DAY
    ensures Since(s.raw, Earliest(now)) == Since(s.ever, Earliest(now))
  {
    assert cut <= Earliest(now);
    SinceSince(s.raw, cut, Earliest(now));
    SinceSince(s.ever, cut, Earliest(now));
  }

  lemma NoRowNoSample(rows: seq<Row>, samples: seq<Sample>, h: int)
    requires RowsCoverHour(rows, samples, h) && RowsIn(rows, h) == []
    ensures Within(samples, h, HOUR) == []
  {
    hide Within, RowOf, Floor;
    forall x | x in samples ensures Floor(x.ts, HOUR) != h {
      HourOfBucket(x.ts);
    }
    NoneWithin(samples, h);
  }

  lemma NoneWithin(samples: seq<Sample>, h: int)
    requires forall x <- samples :: Floor(x.ts, HOUR) != h
    ensures Within(samples, h, HOUR) == []
  {
    var r := Within(samples, h, HOUR);
    NothingIn(r);
  }

  lemma {:induction false} RolledCovers(s: Series, now: int, rows: seq<Row>, h: int)
    requires WholeRollup(s, now) && h >= Earliest(now) && Lists(rows, RolledUp(s.raw, s.rolled, now))
    requires Since(s.raw, Earliest(now)) == Since(s.ever, Earliest(now))
    requires forall b <- s.rolled :: s.rolled[b].bucket == b && exists x <- s.ever :: Floor(x.ts, FIVE) == b
    ensures RowsCoverHour(rows, s.ever, h)
  {
    hide RowOf, RolledUp, Floor, WholeRollup, Earliest;
    forall x | x in s.ever && Floor(x.ts, HOUR) == h ensures exists r <- rows :: r.bucket == Floor(x.ts, FIVE) {
      RolledBucket(s, now, x);
    }
    forall r | r in rows && Floor(r.bucket, HOUR) == h
      ensures Within(s.ever, r.bucket, FIVE) != [] && r == RowOf(r.bucket, Within(s.ever, r.bucket, FIVE))
    {
      RolledRow(s, now, r.bucket);
    }
  }

  lemma {:induction false} RolledBucket(s: Series, now: int, x: Sample)
    requires x in s.ever && Floor(x.ts, HOUR) >= Earliest(now)
    requires Since(s.raw, Earliest(now)) == Since(s.ever, Earliest(now))
    requires forall b <- s.rolled :: s.rolled[b].bucket == b
    ensures var (rolled, b) := (RolledUp(s.raw, s.rolled, now), Floor(x.ts, FIVE)); b in rolled && rolled[b].bucket == b
  {
    assert x in Since(s.raw, Earliest(now));
  }

  /** A row of the window is the aggregate of everything its bucket ever had. */
  lemma {:induction false} RolledRow(s: Series, now: int, b: int)
    requires WholeRollup(s, now) && Floor(b, HOUR) >= Earliest(now) && b in RolledUp(s.raw, s.rolled, now)
    requires Since(s.raw, Earliest(now)) == Since(s.ever, Earliest(now))
    requires forall c <- s.rolled :: exists x <- s.ever :: Floor(x.ts, FIVE) == c
    ensures Within(s.ever, b, FIVE) != [] && RolledUp(s.raw, s.rolled, now)[b] == RowOf(b, Within(s.ever, b, FIVE))
  {
    hide RowOf, Earliest;
    var recent := Since(s.raw, Earliest(now));
    if b in s.rolled {
      var x :| x in s.ever && Floor(x.ts, FIVE) == b;
      assert x in recent;
    }
    var x :| x in recent && Floor(x.ts, FIVE) == b;
    assert x in Within(recent, b, FIVE);
    assert b in BucketsOf(recent);
  }

  // ---- hours older than a day ----

  /** The samples of a bucket when a rollup last recomputed it. */
  function Covered(days: Days, steps: seq<Step>, b: int): seq<Sample> {
    if steps == [] then [] else
      var front, step := steps[..|steps| - 1], steps[|steps| - 1];
      if step.RollUp? && Earliest(step.now) <= b then Within(Run(days, front).ever, b, FIVE) else Covered(days, front, b)
  }

  lemma {:induction false} RollUpAt(s: Series, now: int, b: int)
    requires Floor(b, FIVE) == b && Since(s.raw, Earliest(now)) == Since(s.ever, Earliest(now))
    ensures var (rolled, own) := (RolledUp(s.raw, s.rolled, now), Within(s.ever, b, FIVE));
      if Earliest(now) <= b
      then (b in rolled <==> b in s.rolled || own != [])
           && (b in rolled ==> rolled[b] == if own != [] then RowOf(b, own) else s.rolled[b])
      else (b in rolled <==> b in s.rolled) && (b in rolled ==> rolled[b] == s.rolled[b])
  {
    hide RowOf;
    var recent := Since(s.raw, Earliest(now));
    InBuckets(recent, b);
    if Earliest(now) <= b {
      WithinSince(s.ever, b, Earliest(now));
    } else {
      forall x | x in Within(recent, b, FIVE) ensures false {
        NotSoOld(x.ts, now);
      }
      NothingIn(Within(recent, b, FIVE));
    }
  }

  lemma InBuckets(samples: seq<Sample>, b: int)
    ensures b in BucketsOf(samples) <==> Within(samples, b, FIVE) != []
  {
    hide Floor;
    NothingIn(Within(samples, b, FIVE));
    if b in BucketsOf(samples) {
      var x :| x in samples && Floor(x.ts, FIVE) == b;
      assert x in Within(samples, b, FIVE);
    }
    if Within(samples, b, FIVE) != [] {
      assert Within(samples, b, FIVE)[0] in Within(samples, b, FIVE);
    }
  }

  lemma NotSoOld(ts: int, now: int)
    requires ts >= Earliest(now)
    ensures Floor(ts, FIVE) >= Earliest(now)
  {
  }

  lemma {:induction false} PutKeepsBucket(samples: seq<Sample>, x: Sample, b: int)
    requires Within(samples, b, FIVE) != []
    ensures Within(Put(samples, x), b, FIVE) != []
  {
    hide Floor, Put;
    var y := Within(samples, b, FIVE)[0];
    assert y in Within(samples, b, FIVE);
    PutKeepsTimes(samples, x, y);
    var z :| z in Put(samples, x) && z.ts == y.ts;
    assert z in Within(Put(samples, x), b, FIVE);
  }

  /** A row that has not expired is what its bucket held at the last rollup that reached back to it. */
  lemma {:induction false} RowIsCovered(days: Days, steps: seq<Step>, t: int, b: int)
    requires days.raw >= 2 && Clocked(steps, t) && b >= t - days.rollup * DAY && Floor(b, FIVE) == b
    ensures var (s, own) := (Run(days, steps), Covered(days, steps, b));
      && (b in s.rolled <==> own != []) && (b in s.rolled ==> s.rolled[b] == RowOf(b, own))
      && (own != [] ==> Within(s.ever, b, FIVE) != [])
  {
    if steps != [] {
      hide RowOf, Within, Since, RolledUp, Floor, Earliest, RawCut, Clocked, Put;
      var front, step := steps[..|steps| - 1], steps[|steps| - 1];
      ClockedFront(steps, t);
      RowIsCovered(days, front, step.now, b);
      var s := Run(days, front);
      match step {
        case Take(x, _) =>
          if Covered(days, front, b) != [] { PutKeepsBucket(s.ever, x, b); }
        case RollUp(now) =>
          RecentRawIntact(days, front, now);
          RawCutBefore(days, now);
          RecentAgree(s, RawCut(days, now), now);
          RollUpAt(s, now, b);
        case Retain(now) =>
      }
    }
  }

  /** `samples` holds, in each bucket of the hour, what the rollups have covered. */
  ghost predicate CoveredHour(days: Days, steps: seq<Step>, samples: seq<Sample>, h: int) {
    forall b :: Floor(b, FIVE) == b && Floor(b, HOUR) == h ==> Within(samples, b, FIVE) == Covered(days, steps, b)
  }

  function BucketAt(h: int, k: int): int { h + k * FIVE }

  /** What the first `n` buckets from `h` held at the last rollups that reached back to them. */
  function CoveredFrom(days: Days, steps: seq<Step>, h: int, n: nat): seq<Sample> {
    if n == 0 then [] else CoveredFrom(days, steps, h, n - 1) + Covered(days, steps, BucketAt(h, n - 1))
  }

  /** The same for the twelve buckets of an hour. */
  function HourCovered(days: Days, steps: seq<Step>, h: int): seq<Sample> { CoveredFrom(days, steps, h, 12) }

  lemma {:induction false} CoveredOwn(days: Days, steps: seq<Step>, b: int)
    ensures forall x <- Covered(days, steps, b) :: Floor(x.ts, FIVE) == b
  {
    if steps != [] {
      CoveredOwn(days, steps[..|steps| - 1], b);
    }
  }

  lemma {:induction false} WithinConcat(a: seq<Sample>, c: seq<Sample>, b: int)
    ensures Within(a + c, b, FIVE) == Within(a, b, FIVE) + Within(c, b, FIVE)
  {
    hide Floor;
    if c == [] {
      assert a + c == a;
    } else {
      assert (a + c)[..|a + c| - 1] == a + c[..|c| - 1];
      WithinConcat(a, c[..|c| - 1], b);
    }
  }

  lemma {:induction false} WithinOwn(samples: seq<Sample>, c: int, b: int)
    requires forall x <- samples :: Floor(x.ts, FIVE) == c
    ensures Within(samples, b, FIVE) == if b == c then samples else []
  {
    hide Floor;
    if samples != [] {
      assert samples == samples[..|samples| - 1] + [samples[|samples| - 1]];
      WithinOwn(samples[..|samples| - 1], c, b);
    }
  }

  predicate OneOf(h: int, n: nat, b: int) { exists k :: 0 <= k < n && b == BucketAt(h, k) }

  lemma OneMoreBucket(h: int, n: nat, b: int)
    requires n > 0
    ensures OneOf(h, n, b) <==> OneOf(h, n - 1, b) || b == BucketAt(h, n - 1)
    ensures b == BucketAt(h, n - 1) ==> !OneOf(h, n - 1, b)
  {
    assert b == BucketAt(h, n - 1) ==> 0 <= n - 1 < n && b == BucketAt(h, n - 1);
  }

  /** More samples, all of one bucket: only that bucket gains. */
  lemma JoinWithin(front: seq<Sample>, last: seq<Sample>, c: int, b: int)
    requires forall x <- last :: Floor(x.ts, FIVE) == c
    ensures Within(front + last, b, FIVE) == if b == c then Within(front, b, FIVE) + last else Within(front, b, FIVE)
  {
    hide Within, Floor;
    WithinOwn(last, c, b);
    WithinConcat(front, last, b);
  }

  lemma JoinBucket(front: seq<Sample>, last: seq<Sample>, c: int, b: int)
    requires (forall x <- last :: Floor(x.ts, FIVE) == c) && (b == c ==> Within(front, b, FIVE) == [])
    ensures Within(front + last, b, FIVE) == if b == c then last else Within(front, b, FIVE)
  {
    hide Within, Floor;
    JoinWithin(front, last, c, b);
    assert [] + last == last;
  }

  lemma {:induction false} CoveredFromWithin(days: Days, steps: seq<Step>, h: int, n: nat, b: int)
    ensures Within(CoveredFrom(days, steps, h, n), b, FIVE) == if OneOf(h, n, b) then Covered(days, steps, b) else []
  {
    if n > 0 {
      hide Covered, Within, Floor, OneOf, BucketAt;
      var c := BucketAt(h, n - 1);
      OneMoreBucket(h, n, b);
      CoveredFromWithin(days, steps, h, n - 1, b);
      CoveredOwn(days, steps, c);
      JoinBucket(CoveredFrom(days, steps, h, n - 1), Covered(days, steps, c), c, b);
    }
  }

  lemma BucketOfHour(b: int, h: int) returns (k: int)
    requires Floor(b, FIVE) == b && Floor(b, HOUR) == h
    ensures 0 <= k < 12 && b == BucketAt(h, k)
  {
    k := b / FIVE - 12 * (b / HOUR);
  }

  lemma {:induction false} HourIsCovered(days: Days, steps: seq<Step>, h: int)
    ensures CoveredHour(days, steps, HourCovered(days, steps, h), h)
  {
    hide Covered, CoveredFrom, Within;
    forall b | Floor(b, FIVE) == b && Floor(b, HOUR) == h
      ensures Within(HourCovered(days, steps, h), b, FIVE) == Covered(days, steps, b)
    {
      var k := BucketOfHour(b, h);
      CoveredFromWithin(days, steps, h, 12, b);
    }
  }

  lemma BucketFloors(ts: int, b: int)
    requires Floor(ts, FIVE) == b
    ensures Floor(b, FIVE) == b && b >= Floor(b, HOUR)
  {
  }

  /** A row of a retained hour, and what its bucket held. */
  lemma {:induction false} CoveredRow(days: Days, steps: seq<Step>, t: int, h: int, b: int)
    requires days.raw >= 2 && Clocked(steps, t) && h >= t - days.rollup * DAY
    requires Floor(b, HOUR) == h && b in Run(days, steps).rolled
    ensures var (s, own) := (Run(days, steps), Covered(days, steps, b));
      && Floor(b, FIVE) == b && own != [] && s.rolled[b].bucket == b && s.rolled[b] == RowOf(b, own)
      && Within(s.ever, b, FIVE) != []
  {
    hide Run, Clocked, Within, Floor, RowOf, Covered;
    RolledFromSamples(days, steps);
    var x :| x in Run(days, steps).ever && Floor(x.ts, FIVE) == b;
    BucketFloors(x.ts, b);
    RowIsCovered(days, steps, t, b);
  }

  lemma {:induction false} CoveredRows(days: Days, steps: seq<Step>, t: int, rows: seq<Row>, h: int, samples: seq<Sample>)
    requires days.raw >= 2 && Clocked(steps, t) && h >= t - days.rollup * DAY
    requires Lists(rows, Run(days, steps).rolled) && CoveredHour(days, steps, samples, h)
    ensures RowsCoverHour(rows, samples, h)
  {
    hide Run, Clocked, Within, Floor, RowOf, Covered;
    forall r | r in rows && Floor(r.bucket, HOUR) == h
      ensures Within(samples, r.bucket, FIVE) != [] && r == RowOf(r.bucket, Within(samples, r.bucket, FIVE))
    {
      CoveredRow(days, steps, t, h, r.bucket);
    }
    forall x | x in samples && Floor(x.ts, HOUR) == h ensures exists r <- rows :: r.bucket == Floor(x.ts, FIVE) {
      var b := Floor(x.ts, FIVE);
      HourOfBucket(x.ts);
      BucketFloors(x.ts, b);
      assert x in Within(samples, b, FIVE);
      RowIsCovered(days, steps, t, b);
      CoveredRow(days, steps, t, h, b);
      assert Run(days, steps).rolled[b] in rows;
    }
  }

  lemma {:induction false} EverHasHour(days: Days, steps: seq<Step>, t: int, rows: seq<Row>, h: int)
    requires days.raw >= 2 && Clocked(steps, t) && h >= t - days.rollup * DAY
    requires Lists(rows, Run(days, steps).rolled) && RowsIn(rows, h) != []
    ensures Within(Run(days, steps).ever, h, HOUR) != []
  {
    hide Run, Clocked, Within, Floor, RowOf, Covered;
    var b, ever := RowsIn(rows, h)[0].bucket, Run(days, steps).ever;
    assert RowsIn(rows, h)[0] in RowsIn(rows, h);
    CoveredRow(days, steps, t, h, b);
    var x := Within(ever, b, FIVE)[0];
    assert x in Within(ever, b, FIVE);
    HourOfBucket(x.ts);
    assert x in Within(ever, h, HOUR);
  }

  /**
   * Any retained hour, at any time: its point is the exact combination of the samples its twelve
   * buckets held at the last rollups that reached back to them. So it is exact if none has arrived
   * since, and not if there are more now than then.
   */
  lemma {:induction false} RetainedHourExactly(days: Days, steps: seq<Step>, t: int, rows: seq<Row>, h: int)
    requires days.raw >= 2 && Clocked(steps, t) && h >= t - days.rollup * DAY
    requires Lists(rows, Run(days, steps).rolled)
    ensures var samples := Within(HourCovered(days, steps, h), h, HOUR);
      && (RowsIn(rows, h) != [] <==> samples != [])
      && (RowsIn(rows, h) != [] ==>
            var (point, ever) := (Combined(RowsIn(rows, h)), Within(Run(days, steps).ever, h, HOUR));
            && ever != [] && point == AggOf(samples) && PointShows(PointOf(h, point), h, samples)
            && (CoveredHour(days, steps, Run(days, steps).ever, h) ==> point == AggOf(ever))
            && (|ever| > |samples| ==> point != AggOf(ever)))
  {
    hide Run, Clocked, Within, Combined, AggOf, Floor, RowOf, CoveredHour, HourCovered, PointOf, PointShows;
    var s, samples := Run(days, steps), HourCovered(days, steps, h);
    RolledFromSamples(days, steps);
    HourIsCovered(days, steps, h);
    CoveredRows(days, steps, t, rows, h, samples);
    if CoveredHour(days, steps, s.ever, h) { CoveredRows(days, steps, t, rows, h, s.ever); }
    if RowsIn(rows, h) != [] {
      HourExact(rows, samples, h);
      PointMeans(h, Within(samples, h, HOUR));
      if CoveredHour(days, steps, s.ever, h) { HourExact(rows, s.ever, h); }
      EverHasHour(days, steps, t, rows, h);
    } else {
      NoRowNoSample(rows, samples, h);
    }
  }
}
