/**
 * The home page: it compares the latest billing period with an earlier
 * one, shows a card per tracked field that has a reported change, and an
 * energy-efficiency card. The per-field `changes` map comes from the data
 * loader and is taken as given.
 */
module Home {
  import opened Wrappers
  import opened Dates
  import opened Billing
  import opened JsNumber
  import opened Seqs
  import Charts

  // ------------------------------------------------- period selection

  /** The item ended in the same month as the current period, one year earlier. */
  predicate SameMonthYearBefore(item: Record, current: Record)
    ensures SameMonthYearBefore(item, current) ==>
      YearOf(item.end).Known? && YearOf(current.end).Known? && YearOf(item.end).value == YearOf(current.end).value - 1
    ensures SameMonthYearBefore(item, current) ==> item.end != current.end
  {
    match (ParseDayMonthYear(item.end), ParseDayMonthYear(current.end))
    case (Some(a), Some(c)) => a.month == c.month && a.year == c.year - 1
    case _ => false
  }

  /** `data[data.length - 1]`. */
  function CurrentPeriod(data: seq<Record>): (r: Option<Record>)
    ensures r.Some? <==> |data| >= 1
    ensures r.Some? ==> r.value == data[|data| - 1]
  {
    if |data| >= 1 then Some(data[|data| - 1]) else None
  }

  /**
   * The position of the comparison period: the first record of the same
   * month one year before the current one, else the one before last.
   */
  function PreviousIndex(data: seq<Record>): (r: Option<nat>)
    ensures |data| <= 1 ==> r.None?
    ensures r.Some? ==> r.value < |data| - 1
    ensures |data| >= 1 && (exists i :: 0 <= i < |data| && SameMonthYearBefore(data[i], data[|data| - 1])) ==>
              r.Some? && SameMonthYearBefore(data[r.value], data[|data| - 1])
              && forall j :: 0 <= j < r.value ==> !SameMonthYearBefore(data[j], data[|data| - 1])
    ensures |data| >= 2 && (forall i :: 0 <= i < |data| ==> !SameMonthYearBefore(data[i], data[|data| - 1])) ==>
              r == Some(|data| - 2)
  {
    if |data| == 0 then None
    else
      var current := data[|data| - 1];
      var matches := (item: Record) => SameMonthYearBefore(item, current);
      assert !matches(current) by {
        NeverComparedWithItself(current);
      }
      match FirstIndex(data, matches)
      case Some(i) => Some(i)
      case None => if |data| >= 2 then Some(|data| - 2) else None
  }

  /** `data.find(...) || data[data.length - 2]`. */
  function PreviousPeriod(data: seq<Record>): (r: Option<Record>)
    ensures r.Some? <==> |data| >= 2
    ensures r.Some? ==> r.value == data[PreviousIndex(data).value]
  {
    match PreviousIndex(data)
    case Some(i) => Some(data[i])
    case None => None
  }

  /** A record never matches itself, so a match is never the current period. */
  lemma NeverComparedWithItself(r: Record)
    ensures !SameMonthYearBefore(r, r)
  {
  }

  // -------------------------------------------------------- efficiency

  /** The home page's own `calculateEfficiency`. */
  function Efficiency(a: Amounts): (e: real)
    ensures Consumption(a) > 0.0 ==> e * Consumption(a) == a.totalCost
    ensures Consumption(a) <= 0.0 ==> e == 0.0
  {
    var totalEnergy := a.waterUse + a.heatUse + a.coldUse;
    if totalEnergy > 0.0 then a.totalCost / totalEnergy else 0.0
  }

  /** The home page and the charts compute the same efficiency. */
  lemma EfficiencyAgreesWithCharts(a: Amounts)
    ensures Efficiency(a) == Charts.Efficiency(a)
  {
  }

  /**
   * `((current - previous) / previous) * 100`, with no guard: a previous
   * value of 0 gives an infinity or NaN.
   */
  function EfficiencyChange(current: real, previous: real): (r: Num)
    ensures previous != 0.0 ==> r.Finite? && r.value * previous == (current - previous) * 100.0
    ensures previous > 0.0 ==> (IsPositive(r) <==> current > previous)
    ensures previous < 0.0 ==> (IsPositive(r) <==> current < previous)
    ensures previous == 0.0 ==>
              (r.PosInfinity? <==> current > 0.0) && (r.NegInfinity? <==> current < 0.0) && (r.NaN? <==> current == 0.0)
  {
    Scale(Divide(current - previous, previous), 100.0)
  }

  /** `formatChange`: a '+' sign exactly for a positive change, then the value and '%'. */
  function FormatChange(change: Num): (s: string)
    ensures |s| >= 2 && s[|s| - 1] == '%'
    ensures s[0] == '+' <==> IsPositive(change)
    ensures IsPositive(change) ==> s == "+" + ToFixed2(change) + "%"
    ensures !IsPositive(change) ==> s == ToFixed2(change) + "%"
  {
    var digits := ToFixed2(change);
    if IsPositive(change) then
      var s := "+" + digits + "%";
      assert s[0] == '+';
      s
    else
      var s := digits + "%";
      assert s[0] == digits[0] != '+';
      s
  }

  // ------------------------------------------------------------- cards

  datatype Colour = Red | Green

  /**
   * A rising consumption is bad (red) and a falling one good (green);
   * for costs the colours are the other way round. Zero counts as not rising.
   */
  function ChangeColour(isConsumption: bool, change: Num): (c: Colour)
    ensures c == Red <==> (isConsumption <==> IsPositive(change))
  {
    if isConsumption then (if IsPositive(change) then Red else Green)
    else (if IsPositive(change) then Green else Red)
  }

  /** The same change is shown in opposite colours for a consumption and for a cost. */
  lemma ColoursOpposite(change: Num)
    ensures ChangeColour(true, change) != ChangeColour(false, change)
  {
  }

  datatype CardSpec = CardSpec(title: string, field: string, unit: string, isConsumption: bool)

  /** The fields the home page tracks, in display order. */
  const CardSpecs: seq<CardSpec> := [
    CardSpec("Consumo de Agua", Key(WaterUse), "m³", true),
    CardSpec("Costo de Agua", Key(WaterCost), "€", false),
    CardSpec("Consumo de Calefacción", Key(HeatUse), "MWh", true),
    CardSpec("Costo de Calefacción", Key(HeatCost), "€", false),
    CardSpec("Consumo de Refrigeración", Key(ColdUse), "MWh", true),
    CardSpec("Costo de Refrigeración", Key(ColdCost), "€", false),
    CardSpec("Fijo Encendido Caldera ACS", Key(FixedHotWater), "€", false),
    CardSpec("Fijo Encendido Caldera Calefacción", Key(FixedHeating), "€", false),
    CardSpec("Cuota de Servicio", Key(Service), "€", false),
    CardSpec("Costo Total", Key(TotalCost), "€", false)
  ]

  /** One entry of the loader's `changes` map. */
  datatype ChangeData = ChangeData(current: Num, previous: Num, change: Num)

  datatype Card = Card(
    title: string, unit: string, colour: Colour, rising: bool,
    previousText: string, currentText: string, changeText: string, comparedWith: string)

  /** `renderCard`: nothing when the field has no change entry. */
  function RenderCard(spec: CardSpec, changes: map<string, ChangeData>, comparedWith: string): (r: Option<Card>)
    ensures r.Some? <==> spec.field in changes
    ensures r.Some? ==>
      && r.value.title == spec.title && r.value.unit == spec.unit
      && r.value.rising == IsPositive(changes[spec.field].change)
      && r.value.colour == ChangeColour(spec.isConsumption, changes[spec.field].change)
      && r.value.changeText == FormatChange(changes[spec.field].change)
  {
    if spec.field !in changes then None
    else
      var d := changes[spec.field];
      Some(Card(spec.title, spec.unit, ChangeColour(spec.isConsumption, d.change), IsPositive(d.change),
                ToFixed2(d.previous), ToFixed2(d.current), FormatChange(d.change), comparedWith))
  }

  /** `specs.map(renderCard).filter(Boolean)`. */
  function Cards(specs: seq<CardSpec>, changes: map<string, ChangeData>, comparedWith: string): (r: seq<Card>)
    ensures |r| <= |specs|
    ensures specs != [] && specs[0].field in changes ==> r != [] && Some(r[0]) == RenderCard(specs[0], changes, comparedWith)
    decreases |specs|
  {
    if specs == [] then []
    else
      var rest := Cards(specs[1..], changes, comparedWith);
      match RenderCard(specs[0], changes, comparedWith)
      case Some(c) => [c] + rest
      case None => rest
  }

  /** One unfolding of `Cards` at the head. */
  lemma CardsHead(specs: seq<CardSpec>, changes: map<string, ChangeData>, comparedWith: string)
    requires specs != []
    ensures Cards(specs, changes, comparedWith)
         == if specs[0].field in changes
            then [RenderCard(specs[0], changes, comparedWith).value] + Cards(specs[1..], changes, comparedWith)
            else Cards(specs[1..], changes, comparedWith)
  {
  }

  /** Cards are shown exactly for the listed fields that have a change entry, in list order. */
  lemma {:induction false} CardsFollowListedFields(specs: seq<CardSpec>, changes: map<string, ChangeData>, comparedWith: string)
    ensures var shown := Filter(specs, (s: CardSpec) => s.field in changes);
      |Cards(specs, changes, comparedWith)| == |shown|
      && forall i :: 0 <= i < |shown| ==> RenderCard(shown[i], changes, comparedWith) == Some(Cards(specs, changes, comparedWith)[i])
    decreases |specs|
  {
    if specs != [] {
      var p := (s: CardSpec) => s.field in changes;
      CardsFollowListedFields(specs[1..], changes, comparedWith);
      var shown, shownRest := Filter(specs, p), Filter(specs[1..], p);
      var cards, cardsRest := Cards(specs, changes, comparedWith), Cards(specs[1..], changes, comparedWith);
      FilterHead(specs, p);
      CardsHead(specs, changes, comparedWith);
      if p(specs[0]) {
        var rendered := (sp: CardSpec, c: Card) => RenderCard(sp, changes, comparedWith) == Some(c);
        PairwiseCons(rendered, specs[0], shownRest, cards[0], cardsRest);
      } else {
        assert shown == shownRest;
        assert cards == cardsRest;
      }
    }
  }

  // -------------------------------------------------------------- page

  datatype EfficiencyCard = EfficiencyCard(
    previousText: string, currentText: string, changeText: string, colour: Colour, rising: bool)

  datatype Dashboard = Dashboard(
    currentEnd: string, previousEnd: string, cards: seq<Card>, efficiency: EfficiencyCard)

  /** Reading a field of `undefined`: the page throws instead of rendering. */
  datatype PageError = ReadOfUndefined

  /** The home page for the loaded records and change map. */
  function HomePage(data: seq<Record>, changes: map<string, ChangeData>): (r: Result<Dashboard, PageError>)
    ensures r.Success? <==> |data| >= 2
    ensures r.Success? ==> r.value.currentEnd == data[|data| - 1].end
    ensures r.Success? ==> r.value.previousEnd == data[PreviousIndex(data).value].end
    ensures r.Success? ==> r.value.cards == Cards(CardSpecs, changes, r.value.previousEnd)
    ensures r.Success? ==>
      var change := EfficiencyChange(Efficiency(data[|data| - 1].amounts), Efficiency(data[PreviousIndex(data).value].amounts));
      r.value.efficiency.rising == IsPositive(change)
      && r.value.efficiency.colour == (if IsPositive(change) then Red else Green)
      && r.value.efficiency.changeText == FormatChange(change)
  {
    match (CurrentPeriod(data), PreviousPeriod(data))
    case (Some(current), Some(previous)) =>
      var currentEfficiency := Efficiency(current.amounts);
      var previousEfficiency := Efficiency(previous.amounts);
      var change := EfficiencyChange(currentEfficiency, previousEfficiency);
      Success(Dashboard(
        current.end, previous.end,
        Cards(CardSpecs, changes, previous.end),
        EfficiencyCard(ToFixed2(Finite(previousEfficiency)), ToFixed2(Finite(currentEfficiency)),
                       FormatChange(change), if IsPositive(change) then Red else Green, IsPositive(change))))
    case _ => Failure(ReadOfUndefined)
  }
}
