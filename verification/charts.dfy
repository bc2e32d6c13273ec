/**
 * The analytics of the charts page: monthly passthrough or yearly
 * grouping of the records, then the cost distribution, the consumption
 * and cost evolution series, the efficiency series and the tick labels.
 */
module Charts {
  import opened Wrappers
  import opened Text
  import opened Dates
  import opened Billing
  import opened FirstAppearance
  import YG = YearGrouping

  /** A yearly bucket: the first record of its year, with `year` added and numeric fields summed. */
  type Bucket = YG.Bucket<Record>

  /** What `processData` returns: the records themselves, or one bucket per year. */
  datatype Processed = MonthlyRows(rows: seq<Record>) | YearlyRows(buckets: seq<Bucket>)

  /** The year of a record's "Periodo Fin". */
  function KeyOf(r: Record): Year {
    YearOf(r.end)
  }

  /** Adds every numeric field of x into the bucket's record; its other fields stay. */
  function Absorb(b: Record, x: Record): (r: Record)
    ensures r.receipt == b.receipt && r.start == b.start && r.end == b.end
    ensures forall f :: Get(r.amounts, f) == Get(b.amounts, f) + Get(x.amounts, f)
  {
    b.(amounts := Add(b.amounts, x.amounts))
  }

  /**
   * The charts page's reducer: records grouped by the year of their end
   * date; a bucket starts as a copy of its first record (`{ ...item, year }`)
   * and every later record of the year is added into its numeric fields.
   */
  const ByEndYear: YG.Grouping<Record, Record> := YG.Grouping(KeyOf, (r: Record) => r, Absorb)

  // ------------------------------------------ reference yearly definition

  /** The total of the records whose year is y (none when y is NaN). */
  function YearSum(s: seq<Record>, y: Year): Amounts
    decreases |s|
  {
    if s == [] then Zero
    else Add(YearSum(s[..|s| - 1], y), if SameYear(KeyOf(s[|s| - 1]), y) then s[|s| - 1].amounts else Zero)
  }

  /** The total of the bucket opened at position i: its whole year, or s[i] alone if its year is NaN. */
  function BucketTotal(s: seq<Record>, i: nat): Amounts
    requires i < |s|
  {
    if KeyOf(s[i]).NaN? then s[i].amounts else YearSum(s, KeyOf(s[i]))
  }

  /**
   * Yearly grouping stated without the fold: one bucket per position that
   * opens a year, in order; each bucket is that record with the year added
   * and the numeric fields replaced by the total of its year.
   */
  function ReferenceBuckets(s: seq<Record>): (r: seq<Bucket>)
    ensures |r| == |FirstIndices(YG.Keys(ByEndYear, s))|
  {
    var F := FirstIndices(YG.Keys(ByEndYear, s));
    seq(|F|, k requires 0 <= k < |F| =>
      YG.Bucket(KeyOf(s[F[k]]), s[F[k]].(amounts := BucketTotal(s, F[k]))))
  }

  /** `processData(rawData, frame)`. */
  function ProcessData(s: seq<Record>, frame: Frame): (r: Processed)
    ensures frame == Monthly ==> r == MonthlyRows(s)
    ensures frame == Yearly ==> r == YearlyRows(ReferenceBuckets(s))
  {
    if frame == Monthly then MonthlyRows(s)
    else
      YearlyMatchesReference(s);
      YearlyRows(YG.Accumulate(ByEndYear, s))
  }

  lemma YearSumAbsent(s: seq<Record>, y: Year)
    requires forall j :: 0 <= j < |s| ==> !SameYear(KeyOf(s[j]), y)
    ensures YearSum(s, y) == Zero
    decreases |s|
  {
    if s != [] {
      YearSumAbsent(s[..|s| - 1], y);
    }
  }

  lemma BucketTotalSnoc(p: seq<Record>, x: Record, i: nat)
    requires i < |p|
    ensures BucketTotal(p + [x], i)
         == Add(BucketTotal(p, i), if SameYear(KeyOf(x), KeyOf(p[i])) then x.amounts else Zero)
  {
    var s := p + [x];
    assert s[..|s| - 1] == p;
  }

  /** What the reducer collects for a record that opens a year is that record holding its year's totals. */
  lemma {:induction false} CollectedIsYearTotal(s: seq<Record>, i: nat)
    requires i < |s| && IsFirstOfYear(YG.Keys(ByEndYear, s), i)
    ensures YG.Collected(ByEndYear, s, i) == s[i].(amounts := BucketTotal(s, i))
    decreases |s|
  {
    var p, x := s[..|s| - 1], s[|s| - 1];
    assert s == p + [x];
    if i == |s| - 1 {
      forall j | 0 <= j < |p|
        ensures !SameYear(KeyOf(p[j]), KeyOf(x))
      {
        assert YG.Keys(ByEndYear, s)[j] == KeyOf(p[j]);
      }
      YearSumAbsent(p, KeyOf(x));
      assert BucketTotal(s, i) == x.amounts;
    } else {
      assert IsFirstOfYear(YG.Keys(ByEndYear, p), i) by {
        forall j | 0 <= j < i
          ensures !SameYear(YG.Keys(ByEndYear, p)[j], YG.Keys(ByEndYear, p)[i])
        {
          assert YG.Keys(ByEndYear, s)[j] == YG.Keys(ByEndYear, p)[j] && YG.Keys(ByEndYear, s)[i] == YG.Keys(ByEndYear, p)[i];
        }
      }
      CollectedIsYearTotal(p, i);
      BucketTotalSnoc(p, x, i);
    }
  }

  /** The fold computes the reference grouping. */
  lemma YearlyMatchesReference(s: seq<Record>)
    ensures YG.Accumulate(ByEndYear, s) == ReferenceBuckets(s)
  {
    YG.MatchesReference(ByEndYear, s);
    var F := FirstIndices(YG.Keys(ByEndYear, s));
    var R, G := ReferenceBuckets(s), YG.ReferenceBuckets(ByEndYear, s);
    forall k | 0 <= k < |F|
      ensures R[k] == G[k]
    {
      CollectedIsYearTotal(s, F[k]);
    }
  }

  // --------------------------------------- properties of yearly grouping

  function BucketAmounts(bs: seq<Bucket>): (r: seq<Amounts>)
    ensures |r| == |bs|
    ensures forall k :: 0 <= k < |bs| ==> r[k] == bs[k].value.amounts
  {
    seq(|bs|, k requires 0 <= k < |bs| => bs[k].value.amounts)
  }

  function RecordAmounts(s: seq<Record>): (r: seq<Amounts>)
    ensures |r| == |s|
    ensures forall i :: 0 <= i < |s| ==> r[i] == s[i].amounts
  {
    seq(|s|, i requires 0 <= i < |s| => s[i].amounts)
  }

  /** One reducer call adds the record's amounts to the buckets' total. */
  lemma StepAddsToTotal(acc: seq<Bucket>, x: Record)
    ensures Total(BucketAmounts(YG.Step(ByEndYear, acc, x))) == Add(Total(BucketAmounts(acc)), x.amounts)
  {
    match YG.FindYear(acc, KeyOf(x))
    case Some(k) =>
      YG.StepIntoBucket(ByEndYear, acc, x, k);
      assert BucketAmounts(acc[k := YG.Bucket(acc[k].year, Absorb(acc[k].value, x))])
          == BucketAmounts(acc)[k := Add(acc[k].value.amounts, x.amounts)];
      TotalUpdate(BucketAmounts(acc), k, x.amounts);
    case None =>
      YG.StepIntoNewBucket(ByEndYear, acc, x);
      assert BucketAmounts(acc + [YG.Bucket(KeyOf(x), x)]) == BucketAmounts(acc) + [x.amounts];
      TotalAppend(BucketAmounts(acc), [x.amounts]);
      assert [x.amounts][..0] == [];
  }

  /** Yearly grouping preserves the total of every numeric field. */
  lemma {:induction false} YearlyPreservesTotals(s: seq<Record>)
    ensures Total(BucketAmounts(YG.Accumulate(ByEndYear, s))) == Total(RecordAmounts(s))
    decreases |s|
  {
    if s != [] {
      var p, x := s[..|s| - 1], s[|s| - 1];
      YearlyPreservesTotals(p);
      assert RecordAmounts(s)[..|s| - 1] == RecordAmounts(p);
      StepAddsToTotal(YG.Accumulate(ByEndYear, p), x);
    }
  }

  /**
   * A bucket's non-numeric fields are those of the first record of its year,
   * and its numeric fields are the totals of that year.
   */
  lemma YearlyKeepsFirstRecordFields(s: seq<Record>, k: nat)
    requires k < |YG.Accumulate(ByEndYear, s)|
    ensures exists i :: (0 <= i < |s|
      && (forall j :: 0 <= j < i ==> !SameYear(KeyOf(s[j]), KeyOf(s[i])))
      && YG.Accumulate(ByEndYear, s)[k].year == KeyOf(s[i])
      && YG.Accumulate(ByEndYear, s)[k].value.receipt == s[i].receipt
      && YG.Accumulate(ByEndYear, s)[k].value.start == s[i].start
      && YG.Accumulate(ByEndYear, s)[k].value.end == s[i].end
      && YG.Accumulate(ByEndYear, s)[k].value.amounts
           == (if KeyOf(s[i]).Known? then YearSum(s, KeyOf(s[i])) else s[i].amounts))
  {
    YearlyMatchesReference(s);
    var F := FirstIndices(YG.Keys(ByEndYear, s));
    var i := F[k];
    assert IsFirstOfYear(YG.Keys(ByEndYear, s), i);
  }

  // ------------------------------------------------------ derived series

  /** The numeric fields of each processed row, in row order. */
  function RowAmounts(p: Processed): (r: seq<Amounts>)
    ensures p.MonthlyRows? ==> r == RecordAmounts(p.rows)
    ensures p.YearlyRows? ==> r == BucketAmounts(p.buckets)
  {
    match p
    case MonthlyRows(rows) => RecordAmounts(rows)
    case YearlyRows(buckets) => BucketAmounts(buckets)
  }

  /** A row's x-axis period: "Periodo Fin" when monthly, the year when yearly. */
  datatype Label = EndDate(text: string) | YearLabel(year: Year)

  function Labels(p: Processed): (r: seq<Label>)
    ensures |r| == |RowAmounts(p)|
  {
    match p
    case MonthlyRows(rows) => seq(|rows|, i requires 0 <= i < |rows| => EndDate(rows[i].end))
    case YearlyRows(buckets) => seq(|buckets|, k requires 0 <= k < |buckets| => YearLabel(buckets[k].year))
  }

  /** `reduce((sum, item) => sum + Number(item[key]), 0)` for one field. */
  function SumField(xs: seq<Amounts>, f: Field): real
    decreases |xs|
  {
    if xs == [] then 0.0 else SumField(xs[..|xs| - 1], f) + Get(xs[|xs| - 1], f)
  }

  lemma {:induction false} SumFieldIsTotal(xs: seq<Amounts>, f: Field)
    ensures SumField(xs, f) == Get(Total(xs), f)
    decreases |xs|
  {
    if xs != [] {
      SumFieldIsTotal(xs[..|xs| - 1], f);
    }
  }

  datatype Slice = Slice(name: string, value: real)

  /** The six cost categories of the pie chart, in display order. */
  const CategoryNames: seq<string> := ["Agua", "Calor", "Frío", "Fijo ACS", "Fijo Calefacción", "Cuota Servicio"]
  const CategoryFields: seq<Field> := [WaterCost, HeatCost, ColdCost, FixedHotWater, FixedHeating, Service]

  /** `distributionData`: each category's cost summed over the processed rows. */
  function Distribution(p: Processed): (r: seq<Slice>)
    ensures |r| == 6
    ensures forall i :: 0 <= i < 6 ==>
      r[i].name == CategoryNames[i] && r[i].value == Get(Total(RowAmounts(p)), CategoryFields[i])
  {
    var rows := RowAmounts(p);
    SumFieldIsTotal(rows, WaterCost);
    SumFieldIsTotal(rows, HeatCost);
    SumFieldIsTotal(rows, ColdCost);
    SumFieldIsTotal(rows, FixedHotWater);
    SumFieldIsTotal(rows, FixedHeating);
    SumFieldIsTotal(rows, Service);
    [ Slice("Agua", SumField(rows, WaterCost)),
      Slice("Calor", SumField(rows, HeatCost)),
      Slice("Frío", SumField(rows, ColdCost)),
      Slice("Fijo ACS", SumField(rows, FixedHotWater)),
      Slice("Fijo Calefacción", SumField(rows, FixedHeating)),
      Slice("Cuota Servicio", SumField(rows, Service)) ]
  }

  /** The distribution does not depend on the time frame. */
  lemma DistributionSameInBothFrames(s: seq<Record>)
    ensures Distribution(ProcessData(s, Yearly)) == Distribution(ProcessData(s, Monthly))
  {
    var y, m := ProcessData(s, Yearly), ProcessData(s, Monthly);
    assert Total(RowAmounts(y)) == Total(RowAmounts(m)) by {
      YearlyMatchesReference(s);
      YearlyPreservesTotals(s);
    }
    var a, b := Distribution(y), Distribution(m);
    assert forall i :: 0 <= i < 6 ==> a[i] == b[i];
  }

  datatype Point = Point(period: Label, value: real)

  function SumValues(ps: seq<Point>): real
    decreases |ps|
  {
    if ps == [] then 0.0 else SumValues(ps[..|ps| - 1]) + ps[|ps| - 1].value
  }

  /** `consumptionEvolution`: per row, water plus heat plus cold consumption. */
  function ConsumptionEvolution(p: Processed): (r: seq<Point>)
    ensures |r| == |RowAmounts(p)|
    ensures forall i :: 0 <= i < |r| ==> r[i].period == Labels(p)[i] && r[i].value == Consumption(RowAmounts(p)[i])
  {
    var rows := RowAmounts(p);
    var labels := Labels(p);
    seq(|rows|, i requires 0 <= i < |rows| => Point(labels[i], Consumption(rows[i])))
  }

  /** `costEvolution`: per row, the reported total cost. */
  function CostEvolution(p: Processed): (r: seq<Point>)
    ensures |r| == |RowAmounts(p)|
    ensures forall i :: 0 <= i < |r| ==> r[i].period == Labels(p)[i] && r[i].value == RowAmounts(p)[i].totalCost
  {
    var rows := RowAmounts(p);
    var labels := Labels(p);
    seq(|rows|, i requires 0 <= i < |rows| => Point(labels[i], rows[i].totalCost))
  }

  lemma {:induction false} SumOfConsumption(ps: seq<Point>, xs: seq<Amounts>)
    requires |ps| == |xs|
    requires forall i :: 0 <= i < |ps| ==> ps[i].value == Consumption(xs[i])
    ensures SumValues(ps) == Consumption(Total(xs))
    decreases |ps|
  {
    if ps != [] {
      SumOfConsumption(ps[..|ps| - 1], xs[..|xs| - 1]);
      ConsumptionOfSum(Total(xs[..|xs| - 1]), xs[|xs| - 1]);
    }
  }

  lemma {:induction false} SumOfTotalCost(ps: seq<Point>, xs: seq<Amounts>)
    requires |ps| == |xs|
    requires forall i :: 0 <= i < |ps| ==> ps[i].value == xs[i].totalCost
    ensures SumValues(ps) == Total(xs).totalCost
    decreases |ps|
  {
    if ps != [] {
      SumOfTotalCost(ps[..|ps| - 1], xs[..|xs| - 1]);
    }
  }

  /** Summed over all points, both evolution series are the same monthly and yearly. */
  lemma EvolutionTotalsSameInBothFrames(s: seq<Record>)
    ensures SumValues(ConsumptionEvolution(ProcessData(s, Yearly))) == SumValues(ConsumptionEvolution(ProcessData(s, Monthly)))
    ensures SumValues(CostEvolution(ProcessData(s, Yearly))) == SumValues(CostEvolution(ProcessData(s, Monthly)))
  {
    var y, m := ProcessData(s, Yearly), ProcessData(s, Monthly);
    assert Total(RowAmounts(y)) == Total(RowAmounts(m)) by {
      YearlyMatchesReference(s);
      YearlyPreservesTotals(s);
    }
    SumOfConsumption(ConsumptionEvolution(y), RowAmounts(y));
    SumOfConsumption(ConsumptionEvolution(m), RowAmounts(m));
    SumOfTotalCost(CostEvolution(y), RowAmounts(y));
    SumOfTotalCost(CostEvolution(m), RowAmounts(m));
  }

  /** `calculateEfficiency`: cost per unit consumed, and 0 when nothing positive was consumed. */
  function Efficiency(a: Amounts): (e: real)
    ensures Consumption(a) > 0.0 ==> e * Consumption(a) == a.totalCost
    ensures Consumption(a) <= 0.0 ==> e == 0.0
  {
    var total := Consumption(a);
    if total > 0.0 then a.totalCost / total else 0.0
  }

  /** `efficiencyData`: the efficiency of each processed row. */
  function EfficiencySeries(p: Processed): (r: seq<Point>)
    ensures |r| == |RowAmounts(p)|
    ensures forall i :: 0 <= i < |r| ==> r[i].period == Labels(p)[i]
    ensures forall i :: 0 <= i < |r| && Consumption(RowAmounts(p)[i]) > 0.0 ==>
              r[i].value * Consumption(RowAmounts(p)[i]) == RowAmounts(p)[i].totalCost
    ensures forall i :: 0 <= i < |r| && Consumption(RowAmounts(p)[i]) <= 0.0 ==> r[i].value == 0.0
  {
    var rows := RowAmounts(p);
    var labels := Labels(p);
    seq(|rows|, i requires 0 <= i < |rows| => Point(labels[i], Efficiency(rows[i])))
  }

  // ---------------------------------------------------------- tick labels

  /** The monthly x-axis tick: `value.split("/")[1] + "/" + value.split("/")[2]`. */
  function MonthlyTick(value: string): (r: string)
    ensures '/' !in value ==> r == "undefined/undefined"
  {
    var parts := Split(value, '/');
    assert '/' !in value ==> parts == [value] by {
      if '/' !in value {
        SplitNoSeparator(value, '/');
      }
    }
    PartOrUndefined(parts, 1) + "/" + PartOrUndefined(parts, 2)
  }

  /** For a `dd/mm/yyyy` text the tick is `mm/yyyy`: only the day is dropped. */
  lemma TickDropsDay(day: string, month: string, year: string)
    requires '/' !in day && '/' !in month && '/' !in year
    ensures MonthlyTick(day + "/" + month + "/" + year) == month + "/" + year
  {
    JoinThree(day, month, year, '/');
    SplitJoin([day, month, year], '/');
  }
}
