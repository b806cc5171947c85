/** The two emission calculators of the backend: the activity-factor route
    `/calculate` of backend/routes/co2Routes.js and the unit-factor conversion of
    `addEnergyEmission` in backend/controllers/emissionsController.js.  They use
    different factor tables and, as proved below, never agree on a non-zero
    energy. */
module Emissions {
  import opened JsValues

  /** The answer of `/calculate`: 400 for a missing parameter, otherwise the
      estimate in kilograms. */
  datatype CalcResponse = MissingParameters | Calculated(co2e: Num, unit: string)

  /** The factors of `/calculate`, chosen by strict equality on the activity. */
  const ElectricityFactor: real := 0.5
  const CarFactor: real := 0.3
  const OtherFactor: real := 0.2

  function ActivityFactor(activity: Value): (k: real)
    ensures k == ElectricityFactor || k == CarFactor || k == OtherFactor
    ensures k == ElectricityFactor <==> activity == Str("electricity")
    ensures k == CarFactor <==> activity == Str("car")
  {
    if activity == Str("electricity") then ElectricityFactor
    else if activity == Str("car") then CarFactor
    else OtherFactor
  }

  /** `/calculate`: every parameter must be truthy; the energy is converted by
      `*` (JavaScript's `Number` conversion, whose string parser is `toNumber`). */
  function Calculate(energy: Value, energyUnit: Value, activity: Value, toNumber: string -> Num): (r: CalcResponse)
    ensures r.MissingParameters? <==> !Truthy(energy) || !Truthy(energyUnit) || !Truthy(activity)
    ensures r.Calculated? ==> r.unit == "kg"
    ensures r.Calculated? ==> r.co2e == Times(ToNumber(energy, toNumber), ActivityFactor(activity))
  {
    if !Truthy(energy) || !Truthy(energyUnit) || !Truthy(activity) then MissingParameters
    else Calculated(Times(ToNumber(energy, toNumber), ActivityFactor(activity)), "kg")
  }

  /** The unit factors of `addEnergyEmission`: kWh and MWh are converted, any
      other unit (or none) leaves the number as it is. */
  const KwhFactor: real := 0.4
  const MwhFactor: real := 400.0

  function UnitFactor(unit: Value): (k: real)
    ensures k == KwhFactor <==> unit == Str("kWh")
    ensures k == MwhFactor <==> unit == Str("MWh")
    ensures k == 1.0 <==> unit != Str("kWh") && unit != Str("MWh")
  {
    if unit == Str("kWh") then KwhFactor else if unit == Str("MWh") then MwhFactor else 1.0
  }

  /** The conversion at the head of `addEnergyEmission`: `parseFloat` of the
      energy, then scaled in place according to the unit. */
  method EnergyToCo2e(energy: Value, unit: Value, parse: string -> Num) returns (co2e: Num)
    ensures co2e == Times(ParseFloat(energy, parse), UnitFactor(unit))
  {
    co2e := ParseFloat(energy, parse);
    if unit == Str("kWh") {
      co2e := Times(co2e, KwhFactor);
    } else if unit == Str("MWh") {
      co2e := Times(co2e, MwhFactor);
    } else {
      TimesOne(co2e);
    }
  }

  lemma TimesOne(x: Num)
    ensures Times(x, 1.0) == x
  {
  }

  /** Any unit other than kWh and MWh passes the parsed energy through unchanged. */
  lemma OtherUnitUnchanged(energy: Value, unit: Value, parse: string -> Num)
    requires unit != Str("kWh") && unit != Str("MWh")
    ensures Times(ParseFloat(energy, parse), UnitFactor(unit)) == ParseFloat(energy, parse)
  {
    TimesOne(ParseFloat(energy, parse));
  }

  /** For the same energy the MWh result is exactly 1000 times the kWh result
      (and both are NaN when the energy does not parse). */
  lemma MwhIsThousandKwh(energy: Value, parse: string -> Num)
    ensures var kwh := Times(ParseFloat(energy, parse), UnitFactor(Str("kWh")));
            var mwh := Times(ParseFloat(energy, parse), UnitFactor(Str("MWh")));
            (mwh.NaN? <==> kwh.NaN?) && (mwh.Finite? ==> mwh.r == 1000.0 * kwh.r)
  {
  }

  /** The two calculators never agree on a finite, non-zero numeric energy: the
      activity factors are 0.5, 0.3 and 0.2, the unit factors 0.4, 400 and 1. */
  lemma CalculatorsNeverAgree(e: real, energyUnit: Value, activity: Value, toNumber: string -> Num, parse: string -> Num)
    requires e != 0.0
    requires Truthy(energyUnit) && Truthy(activity)
    ensures Calculate(Number(Finite(e)), energyUnit, activity, toNumber).Calculated?
    ensures Calculate(Number(Finite(e)), energyUnit, activity, toNumber).co2e
            != Times(ParseFloat(Number(Finite(e)), parse), UnitFactor(energyUnit))
  {
    var k, u := ActivityFactor(activity), UnitFactor(energyUnit);
    assert k != u;
    assert e * k - e * u == e * (k - u);
  }

  /** A positive energy gives a positive estimate no larger than half of it,
      and electricity outweighs a car, which outweighs any other activity. */
  lemma CalculateBounds(e: real, energyUnit: Value, activity: Value, other: Value, toNumber: string -> Num)
    requires e > 0.0 && Truthy(energyUnit) && Truthy(activity)
    requires Truthy(other) && other != Str("electricity") && other != Str("car")
    ensures var r := Calculate(Number(Finite(e)), energyUnit, activity, toNumber);
            r.Calculated? && r.co2e.Finite? && 0.0 < r.co2e.r <= e / 2.0
    ensures Calculate(Number(Finite(e)), energyUnit, Str("electricity"), toNumber).co2e.r
            > Calculate(Number(Finite(e)), energyUnit, Str("car"), toNumber).co2e.r
            > Calculate(Number(Finite(e)), energyUnit, other, toNumber).co2e.r
  {
  }
}
