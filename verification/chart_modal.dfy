/**
 * The enlarged single-series chart: an optional "last year" window over
 * the monthly points, then monthly passthrough or yearly grouping that
 * keeps only the year and the charted value.
 */
module ChartModal {
  import opened Wrappers
  import opened Dates
  import opened Billing
  import opened FirstAppearance
  import opened Seqs
  import YG = YearGrouping

  /** One incoming item: its `period` (dd/mm/yyyy) and its value under `dataKey`. */
  datatype Point = Point(period: string, value: real)

  /** A yearly item `{ year, [dataKey]: total }`; every other field is dropped. */
  type YearPoint = YG.Bucket<real>

  datatype Series = MonthlyPoints(points: seq<Point>) | YearlyPoints(buckets: seq<YearPoint>)

  /** The "Todo" / "Último Año" choice. */
  datatype Range = All | LastYear

  function KeyOf(p: Point): Year {
    YearOf(p.period)
  }

  /**
   * The enlarged chart's reducer: points grouped by the year of their
   * period; a bucket starts at its first point's value and every later
   * point of the year is added to it.
   */
  const ByYear: YG.Grouping<Point, real> := YG.Grouping(KeyOf, (p: Point) => p.value, (v: real, p: Point) => v + p.value)

  /** The total of the values whose year is y (none when y is NaN). */
  function YearValue(ps: seq<Point>, y: Year): real
    decreases |ps|
  {
    if ps == [] then 0.0
    else YearValue(ps[..|ps| - 1], y) + (if SameYear(KeyOf(ps[|ps| - 1]), y) then ps[|ps| - 1].value else 0.0)
  }

  /** The total of the bucket opened at position i: its whole year, or ps[i] alone if its year is NaN. */
  function BucketValue(ps: seq<Point>, i: nat): real
    requires i < |ps|
  {
    if KeyOf(ps[i]).NaN? then ps[i].value else YearValue(ps, KeyOf(ps[i]))
  }

  /** Yearly grouping stated without the fold: per first occurrence of a year, that year's total. */
  function ReferenceBuckets(ps: seq<Point>): (r: seq<YearPoint>)
    ensures |r| == |FirstIndices(YG.Keys(ByYear, ps))|
  {
    var F := FirstIndices(YG.Keys(ByYear, ps));
    seq(|F|, k requires 0 <= k < |F| => YG.Bucket(KeyOf(ps[F[k]]), BucketValue(ps, F[k])))
  }

  /** `processData(rawData, frame)`. */
  function ProcessData(ps: seq<Point>, frame: Frame): (r: Series)
    ensures frame == Monthly ==> r == MonthlyPoints(ps)
    ensures frame == Yearly ==> r == YearlyPoints(ReferenceBuckets(ps))
  {
    if frame == Monthly then MonthlyPoints(ps)
    else
      YearlyMatchesReference(ps);
      YearlyPoints(YG.Accumulate(ByYear, ps))
  }

  lemma YearValueAbsent(ps: seq<Point>, y: Year)
    requires forall j :: 0 <= j < |ps| ==> !SameYear(KeyOf(ps[j]), y)
    ensures YearValue(ps, y) == 0.0
    decreases |ps|
  {
    if ps != [] {
      YearValueAbsent(ps[..|ps| - 1], y);
    }
  }

  /** What the reducer collects for a point that opens a year is its year's total. */
  lemma {:induction false} CollectedIsYearTotal(ps: seq<Point>, i: nat)
    requires i < |ps| && IsFirstOfYear(YG.Keys(ByYear, ps), i)
    ensures YG.Collected(ByYear, ps, i) == BucketValue(ps, i)
    decreases |ps|
  {
    var p, x := ps[..|ps| - 1], ps[|ps| - 1];
    assert ps == p + [x];
    if i == |ps| - 1 {
      forall j | 0 <= j < |p|
        ensures !SameYear(KeyOf(p[j]), KeyOf(x))
      {
        assert YG.Keys(ByYear, ps)[j] == KeyOf(p[j]);
      }
      YearValueAbsent(p, KeyOf(x));
    } else {
      assert IsFirstOfYear(YG.Keys(ByYear, p), i) by {
        forall j | 0 <= j < i
          ensures !SameYear(YG.Keys(ByYear, p)[j], YG.Keys(ByYear, p)[i])
        {
          assert YG.Keys(ByYear, ps)[j] == YG.Keys(ByYear, p)[j] && YG.Keys(ByYear, ps)[i] == YG.Keys(ByYear, p)[i];
        }
      }
      CollectedIsYearTotal(p, i);
    }
  }

  /** The fold computes the reference grouping. */
  lemma YearlyMatchesReference(ps: seq<Point>)
    ensures YG.Accumulate(ByYear, ps) == ReferenceBuckets(ps)
  {
    YG.MatchesReference(ByYear, ps);
    var F := FirstIndices(YG.Keys(ByYear, ps));
    var R, G := ReferenceBuckets(ps), YG.ReferenceBuckets(ByYear, ps);
    forall k | 0 <= k < |F|
      ensures R[k] == G[k]
    {
      CollectedIsYearTotal(ps, F[k]);
    }
  }

  // ------------------------------------------- properties of the grouping

  function SumPoints(ps: seq<Point>): real
    decreases |ps|
  {
    if ps == [] then 0.0 else SumPoints(ps[..|ps| - 1]) + ps[|ps| - 1].value
  }

  function SumBuckets(bs: seq<YearPoint>): real
    decreases |bs|
  {
    if bs == [] then 0.0 else SumBuckets(bs[..|bs| - 1]) + bs[|bs| - 1].value
  }

  lemma {:induction false} SumBucketsUpdate(bs: seq<YearPoint>, k: nat, v: real)
    requires k < |bs|
    ensures SumBuckets(bs[k := YG.Bucket(bs[k].year, bs[k].value + v)]) == SumBuckets(bs) + v
    decreases |bs|
  {
    var cs := bs[k := YG.Bucket(bs[k].year, bs[k].value + v)];
    if k < |bs| - 1 {
      assert cs[..|cs| - 1] == bs[..|bs| - 1][k := YG.Bucket(bs[k].year, bs[k].value + v)];
      SumBucketsUpdate(bs[..|bs| - 1], k, v);
    } else {
      assert cs[..|cs| - 1] == bs[..|bs| - 1];
    }
  }

  /** One reducer call adds the point's value to the buckets' total. */
  lemma StepAddsToSum(acc: seq<YearPoint>, x: Point)
    ensures SumBuckets(YG.Step(ByYear, acc, x)) == SumBuckets(acc) + x.value
  {
    match YG.FindYear(acc, KeyOf(x))
    case Some(k) =>
      YG.StepIntoBucket(ByYear, acc, x, k);
      SumBucketsUpdate(acc, k, x.value);
    case None =>
      YG.StepIntoNewBucket(ByYear, acc, x);
      var acc' := acc + [YG.Bucket(KeyOf(x), x.value)];
      assert acc'[..|acc'| - 1] == acc;
  }

  /** Yearly grouping preserves the total of the charted value. */
  lemma {:induction false} YearlyPreservesSum(ps: seq<Point>)
    ensures SumBuckets(YG.Accumulate(ByYear, ps)) == SumPoints(ps)
    decreases |ps|
  {
    if ps != [] {
      var p, x := ps[..|ps| - 1], ps[|ps| - 1];
      YearlyPreservesSum(p);
      StepAddsToSum(YG.Accumulate(ByYear, p), x);
    }
  }

  // ---------------------------------------------------- date-range window

  /** Milliseconds since midnight. */
  type MsOfDay = n: nat | n < 86_400_000

  /** The wall clock's `new Date()`: a calendar day and a time of day. */
  datatype Instant = Instant(day: CalendarDate, time: MsOfDay)

  /**
   * `new Date(item.period ...) >= oneYearAgo`: the item's date is taken at
   * midnight and `oneYearAgo` keeps the current time of day, so an item
   * dated exactly one year back counts only at midnight. An unparseable
   * period compares false.
   */
  predicate WithinLastYear(p: Point, now: Instant)
    ensures WithinLastYear(p, now) ==>
      ParseDayMonthYear(p.period).Some? && OnOrAfter(ParseDayMonthYear(p.period).value, OneYearBefore(now.day))
    ensures (ParseDayMonthYear(p.period).Some? && OnOrAfter(ParseDayMonthYear(p.period).value, OneYearBefore(now.day))
             && ParseDayMonthYear(p.period).value != OneYearBefore(now.day)) ==> WithinLastYear(p, now)
  {
    match ParseDayMonthYear(p.period)
    case Some(d) =>
      var cutoff := OneYearBefore(now.day);
      (OnOrAfter(d, cutoff) && d != cutoff) || (d == cutoff && now.time == 0)
    case None => false
  }

  /** A point dated today, written as the entry form writes dates, is always in the window. */
  lemma TodayInWindow(now: Instant, v: real)
    requires now.day.year >= 1
    ensures WithinLastYear(Point(FormatDayMonthYear(now.day), v), now)
  {
    ParseFormatRoundTrip(now.day);
  }

  /** A point dated exactly one year back is in the window only when the clock reads midnight. */
  lemma CutoffDayOnlyAtMidnight(now: Instant, v: real)
    requires now.day.year >= 2
    ensures WithinLastYear(Point(FormatDayMonthYear(OneYearBefore(now.day)), v), now) <==> now.time == 0
  {
    ParseFormatRoundTrip(OneYearBefore(now.day));
  }

  /** `filterData`, with the wall clock's `new Date()` passed in as `now`. */
  function FilterData(ps: seq<Point>, range: Range, frame: Frame, now: Instant): (r: seq<Point>)
    ensures range == All || frame == Yearly ==> r == ps
    ensures IsSubsequence(r, ps)
    ensures range == LastYear && frame == Monthly ==>
      (forall i :: 0 <= i < |r| ==> WithinLastYear(r[i], now))
      && (forall i :: 0 <= i < |ps| && WithinLastYear(ps[i], now) ==> ps[i] in r)
      && (forall x :: multiset(r)[x] == if WithinLastYear(x, now) then multiset(ps)[x] else 0)
  {
    if range == All || frame == Yearly then
      FilterKeepsAll(ps, (p: Point) => true);
      FilterIsSubsequence(ps, (p: Point) => true);
      ps
    else
      var keep := (p: Point) => WithinLastYear(p, now);
      FilterIsSubsequence(ps, keep);
      Filter(ps, keep)
  }

  /** Applying the window twice keeps the same points as applying it once. */
  lemma FilterIdempotentForFixedNow(ps: seq<Point>, range: Range, frame: Frame, now: Instant)
    ensures FilterData(FilterData(ps, range, frame, now), range, frame, now) == FilterData(ps, range, frame, now)
  {
    if range == LastYear && frame == Monthly {
      FilterIdempotent(ps, (p: Point) => WithinLastYear(p, now));
    }
  }

  /** What the chart shows: the window first, then the grouping. */
  function Displayed(ps: seq<Point>, range: Range, frame: Frame, now: Instant): (r: Series)
    ensures frame == Yearly ==> r == YearlyPoints(ReferenceBuckets(ps))
    ensures frame == Monthly ==> r.MonthlyPoints? && IsSubsequence(r.points, ps)
    ensures frame == Monthly && range == All ==> r == MonthlyPoints(ps)
    ensures frame == Monthly && range == LastYear ==> forall i :: 0 <= i < |r.points| ==> WithinLastYear(r.points[i], now)
  {
    ProcessData(FilterData(ps, range, frame, now), frame)
  }

  /** In the yearly frame the window is ignored and the whole series is grouped. */
  lemma YearlyIgnoresRange(ps: seq<Point>, range: Range, now: Instant)
    ensures Displayed(ps, range, Yearly, now) == YearlyPoints(ReferenceBuckets(ps))
    ensures SumBuckets(Displayed(ps, range, Yearly, now).buckets) == SumPoints(ps)
  {
    YearlyMatchesReference(ps);
    YearlyPreservesSum(ps);
  }

  /** In the monthly frame the chart shows exactly the windowed points. */
  lemma MonthlyShowsWindow(ps: seq<Point>, now: Instant)
    ensures Displayed(ps, LastYear, Monthly, now).points == Filter(ps, (p: Point) => WithinLastYear(p, now))
  {
  }
}
