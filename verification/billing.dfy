/**
 * The billing record every view reads: the ten numeric fields of one
 * period plus its receipt number and its start and end date texts.
 * Records are assumed to carry every numeric field as a number.
 */
module Billing {

  /** The ten numeric fields of a record (consumptions in m³ and MWh, costs in €). */
  datatype Amounts = Amounts(
    waterUse: real,      // "Consumo Agua (m³)"
    waterCost: real,     // "Costo Agua (€)"
    heatUse: real,       // "Consumo Energia Calor (MWh)"
    heatCost: real,      // "Costo Energia Calor (€)"
    coldUse: real,       // "Consumo Energia Frio (MWh)"
    coldCost: real,      // "Costo Energia Frio (€)"
    fixedHotWater: real, // "Fijo Encendido Caldera ACS (€)"
    fixedHeating: real,  // "Fijo Encendido Caldera Calefacción (€)"
    service: real,       // "Cuota Servicio (€)"
    totalCost: real      // "Costo Total (€)"
  )

  /** The names of the numeric fields. */
  datatype Field =
    | WaterUse | WaterCost | HeatUse | HeatCost | ColdUse | ColdCost
    | FixedHotWater | FixedHeating | Service | TotalCost

  /** `item[key]` for a numeric field. */
  function Get(a: Amounts, f: Field): real {
    match f
    case WaterUse => a.waterUse
    case WaterCost => a.waterCost
    case HeatUse => a.heatUse
    case HeatCost => a.heatCost
    case ColdUse => a.coldUse
    case ColdCost => a.coldCost
    case FixedHotWater => a.fixedHotWater
    case FixedHeating => a.fixedHeating
    case Service => a.service
    case TotalCost => a.totalCost
  }

  /** The record key a field is stored under. */
  function Key(f: Field): string {
    match f
    case WaterUse => "Consumo Agua (m³)"
    case WaterCost => "Costo Agua (€)"
    case HeatUse => "Consumo Energia Calor (MWh)"
    case HeatCost => "Costo Energia Calor (€)"
    case ColdUse => "Consumo Energia Frio (MWh)"
    case ColdCost => "Costo Energia Frio (€)"
    case FixedHotWater => "Fijo Encendido Caldera ACS (€)"
    case FixedHeating => "Fijo Encendido Caldera Calefacción (€)"
    case Service => "Cuota Servicio (€)"
    case TotalCost => "Costo Total (€)"
  }

  const Zero := Amounts(0.0, 0.0, 0.0, 0.0, 0.0, 0.0, 0.0, 0.0, 0.0, 0.0)

  /** Field-by-field sum: what adding every numeric field of one record into another does. */
  function Add(a: Amounts, b: Amounts): (r: Amounts)
    ensures forall f :: Get(r, f) == Get(a, f) + Get(b, f)
  {
    Amounts(a.waterUse + b.waterUse, a.waterCost + b.waterCost,
            a.heatUse + b.heatUse, a.heatCost + b.heatCost,
            a.coldUse + b.coldUse, a.coldCost + b.coldCost,
            a.fixedHotWater + b.fixedHotWater, a.fixedHeating + b.fixedHeating,
            a.service + b.service, a.totalCost + b.totalCost)
  }

  /** Field-by-field total of a sequence of amounts. */
  function Total(xs: seq<Amounts>): Amounts
    decreases |xs|
  {
    if xs == [] then Zero else Add(Total(xs[..|xs| - 1]), xs[|xs| - 1])
  }

  lemma {:induction false} TotalAppend(xs: seq<Amounts>, ys: seq<Amounts>)
    ensures Total(xs + ys) == Add(Total(xs), Total(ys))
    decreases |ys|
  {
    if ys != [] {
      var zs := xs + ys;
      assert zs[..|zs| - 1] == xs + ys[..|ys| - 1];
      TotalAppend(xs, ys[..|ys| - 1]);
    } else {
      assert xs + ys == xs;
    }
  }

  /** Adding a into one element adds a into the total. */
  lemma {:induction false} TotalUpdate(xs: seq<Amounts>, k: nat, a: Amounts)
    requires k < |xs|
    ensures Total(xs[k := Add(xs[k], a)]) == Add(Total(xs), a)
    decreases |xs|
  {
    var ys := xs[k := Add(xs[k], a)];
    if k < |xs| - 1 {
      assert ys[..|ys| - 1] == xs[..|xs| - 1][k := Add(xs[k], a)];
      TotalUpdate(xs[..|xs| - 1], k, a);
    } else {
      assert ys[..|ys| - 1] == xs[..|xs| - 1];
    }
  }

  /** The physical consumption of a period: water plus heat plus cold. */
  function Consumption(a: Amounts): real {
    a.waterUse + a.heatUse + a.coldUse
  }

  lemma ConsumptionOfSum(a: Amounts, b: Amounts)
    ensures Consumption(Add(a, b)) == Consumption(a) + Consumption(b)
  {
  }

  /** One billing period as the data loader delivers it. */
  datatype Record = Record(
    receipt: string, // "Numero Recibo"
    start: string,   // "Periodo Inicio", dd/mm/yyyy
    end: string,     // "Periodo Fin", dd/mm/yyyy
    amounts: Amounts
  )

  /** The granularity a chart is shown at. */
  datatype Frame = Monthly | Yearly
}
