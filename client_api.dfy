/** The selection logic of frontend/src/services/api.js: the query string of
    `getFilteredCO2Data`, the normalisation of the records the backend returns,
    the payload of `saveCO2Estimate`, the emission-factor lookup and the
    fallback of `getRealTimeCO2Data`.  HTTP calls are parameters: a request that
    throws is `None`, one that answers is `Some(data)`. */
module ClientApi {
  import opened JsValues
  import opened Wrappers
  import FQ = FilterQuery
  import Emissions

  // ---------------------------------------------------------------------------
  // The query string of getFilteredCO2Data

  /** The query-string key of each filter dimension. */
  function Key(d: FQ.Dimension): string
  {
    match d
    case Location => "location"
    case MinEmission => "minEmission"
    case MaxEmission => "maxEmission"
    case MinTemp => "minTemp"
    case MaxTemp => "maxTemp"
    case StartDate => "startDate"
    case EndDate => "endDate"
    case ActivityType => "activityType"
  }

  lemma KeyInjective(d: FQ.Dimension, e: FQ.Dimension)
    requires Key(d) == Key(e)
    ensures d == e
  {
  }

  /** The client sends a filter exactly when its value is truthy. */
  predicate Sent(filters: Value, d: FQ.Dimension)
  {
    Truthy(Get(filters, Key(d)))
  }

  function SentOpt(filters: Value, d: FQ.Dimension): seq<FQ.Dimension>
  {
    if Sent(filters, d) then [d] else []
  }

  /** The dimensions of `ds` the client sends, in the order of `ds`. */
  function Appended(filters: Value, ds: seq<FQ.Dimension>): seq<FQ.Dimension>
  {
    if ds == [] then [] else Appended(filters, ds[..|ds| - 1]) + SentOpt(filters, ds[|ds| - 1])
  }

  /** The `key=value` pairs for `ds`, the value being the filter's string form. */
  function Entries(filters: Value, ds: seq<FQ.Dimension>, str: Value -> string): (q: seq<(string, string)>)
    ensures |q| == |ds|
  {
    if ds == [] then []
    else Entries(filters, ds[..|ds| - 1], str) + [(Key(ds[|ds| - 1]), str(Get(filters, Key(ds[|ds| - 1]))))]
  }

  /** The query string the client sends for `filters`. */
  function QueryParams(filters: Value, str: Value -> string): seq<(string, string)>
  {
    Entries(filters, Appended(filters, FQ.Dimensions), str)
  }

  /** The eight `if (filters.x) queryParams.append("x", filters.x)` of the client. */
  method BuildQueryParams(filters: Value, str: Value -> string) returns (q: seq<(string, string)>)
    ensures q == QueryParams(filters, str)
  {
    q := [];
    ghost var sel: seq<FQ.Dimension> := [];
    q := AppendIfSent(filters, FQ.Location, q, str, sel);
    sel := sel + SentOpt(filters, FQ.Location);
    q := AppendIfSent(filters, FQ.MinEmission, q, str, sel);
    sel := sel + SentOpt(filters, FQ.MinEmission);
    q := AppendIfSent(filters, FQ.MaxEmission, q, str, sel);
    sel := sel + SentOpt(filters, FQ.MaxEmission);
    q := AppendIfSent(filters, FQ.MinTemp, q, str, sel);
    sel := sel + SentOpt(filters, FQ.MinTemp);
    q := AppendIfSent(filters, FQ.MaxTemp, q, str, sel);
    sel := sel + SentOpt(filters, FQ.MaxTemp);
    q := AppendIfSent(filters, FQ.StartDate, q, str, sel);
    sel := sel + SentOpt(filters, FQ.StartDate);
    q := AppendIfSent(filters, FQ.EndDate, q, str, sel);
    sel := sel + SentOpt(filters, FQ.EndDate);
    q := AppendIfSent(filters, FQ.ActivityType, q, str, sel);
    sel := sel + SentOpt(filters, FQ.ActivityType);
    AppendedAll(filters);
  }

  /** One `if … append` of the client. */
  method AppendIfSent(filters: Value, d: FQ.Dimension, q: seq<(string, string)>, str: Value -> string,
                      ghost sel: seq<FQ.Dimension>)
    returns (q': seq<(string, string)>)
    requires q == Entries(filters, sel, str)
    ensures q' == Entries(filters, sel + SentOpt(filters, d), str)
  {
    if Sent(filters, d) {
      q' := q + [(Key(d), str(Get(filters, Key(d))))];
      assert (sel + [d])[..|sel|] == sel;
    } else {
      q' := q;
      assert sel + SentOpt(filters, d) == sel;
    }
  }

  lemma AppendedAll(filters: Value)
    ensures Appended(filters, FQ.Dimensions) == [] + SentOpt(filters, FQ.Location) + SentOpt(filters, FQ.MinEmission)
      + SentOpt(filters, FQ.MaxEmission) + SentOpt(filters, FQ.MinTemp) + SentOpt(filters, FQ.MaxTemp)
      + SentOpt(filters, FQ.StartDate) + SentOpt(filters, FQ.EndDate) + SentOpt(filters, FQ.ActivityType)
  {
    var ds: seq<FQ.Dimension> := [];
    AppendedSnoc(filters, ds, FQ.Location);
    ds := ds + [FQ.Location];
    AppendedSnoc(filters, ds, FQ.MinEmission);
    ds := ds + [FQ.MinEmission];
    AppendedSnoc(filters, ds, FQ.MaxEmission);
    ds := ds + [FQ.MaxEmission];
    AppendedSnoc(filters, ds, FQ.MinTemp);
    ds := ds + [FQ.MinTemp];
    AppendedSnoc(filters, ds, FQ.MaxTemp);
    ds := ds + [FQ.MaxTemp];
    AppendedSnoc(filters, ds, FQ.StartDate);
    ds := ds + [FQ.StartDate];
    AppendedSnoc(filters, ds, FQ.EndDate);
    ds := ds + [FQ.EndDate];
    AppendedSnoc(filters, ds, FQ.ActivityType);
    ds := ds + [FQ.ActivityType];
    assert ds == FQ.Dimensions;
  }

  lemma AppendedSnoc(filters: Value, ds: seq<FQ.Dimension>, d: FQ.Dimension)
    ensures Appended(filters, ds + [d]) == Appended(filters, ds) + SentOpt(filters, d)
  {
    assert (ds + [d])[..|ds|] == ds;
  }

  /** A dimension is sent exactly when it is listed and its value is truthy. */
  lemma {:induction false} AppendedMembers(filters: Value, ds: seq<FQ.Dimension>, d: FQ.Dimension)
    ensures d in Appended(filters, ds) <==> d in ds && Sent(filters, d)
    decreases |ds|
  {
    if ds != [] {
      AppendedMembers(filters, ds[..|ds| - 1], d);
      assert ds == ds[..|ds| - 1] + [ds[|ds| - 1]];
    }
  }

  /** The client's keys come in the server's fixed order, each at most once. */
  lemma {:induction false} AppendedOrdered(filters: Value, ds: seq<FQ.Dimension>)
    requires FQ.InRouteOrder(ds)
    ensures FQ.InRouteOrder(Appended(filters, ds))
    decreases |ds|
  {
    if ds != [] {
      var init, last := ds[..|ds| - 1], ds[|ds| - 1];
      AppendedOrdered(filters, init);
      var s := Appended(filters, init);
      forall i | 0 <= i < |s|
        ensures FQ.Rank(s[i]) < FQ.Rank(last)
      {
        AppendedMembers(filters, init, s[i]);
        var k :| 0 <= k < |init| && init[k] == s[i];
        assert ds[k] == s[i];
      }
    }
  }

  /** The first value sent under `key`; for a key that occurs once, the
      value the server reads for it. */
  function Lookup(q: seq<(string, string)>, key: string): (r: Option<string>)
    ensures r.Some? ==> exists i :: 0 <= i < |q| && q[i] == (key, r.value)
    ensures r.None? ==> forall i :: 0 <= i < |q| ==> q[i].0 != key
  {
    if q == [] then None
    else
      var r := Lookup(q[..|q| - 1], key);
      if r.Some? then r
      else if q[|q| - 1].0 == key then Some(q[|q| - 1].1)
      else None
  }

  /** The value `req.query[key]`: the sent text, or undefined. */
  function QueryValue(q: seq<(string, string)>, key: string): Value
  {
    match Lookup(q, key)
    case None => Undefined
    case Some(s) => Str(s)
  }

  /** The server's view of a query string. */
  function ServerFilters(q: seq<(string, string)>): FQ.Filters
  {
    FQ.Filters(QueryValue(q, "location"), QueryValue(q, "minEmission"), QueryValue(q, "maxEmission"),
               QueryValue(q, "minTemp"), QueryValue(q, "maxTemp"), QueryValue(q, "startDate"),
               QueryValue(q, "endDate"), QueryValue(q, "activityType"))
  }

  lemma ServerValueIsQueryValue(q: seq<(string, string)>, d: FQ.Dimension)
    ensures FQ.FilterValue(ServerFilters(q), d) == QueryValue(q, Key(d))
  {
  }

  /** Each sent key is read back as the string the client sent for it. */
  lemma {:induction false} LookupEntries(filters: Value, ds: seq<FQ.Dimension>, str: Value -> string, d: FQ.Dimension)
    ensures Lookup(Entries(filters, ds, str), Key(d)) == if d in ds then Some(str(Get(filters, Key(d)))) else None
    decreases |ds|
  {
    if ds != [] {
      var init, last := ds[..|ds| - 1], ds[|ds| - 1];
      LookupEntries(filters, init, str, d);
      var q := Entries(filters, ds, str);
      assert q[..|q| - 1] == Entries(filters, init, str);
      assert ds == init + [last];
      if Key(last) == Key(d) {
        KeyInjective(last, d);
      }
    }
  }

  lemma {:induction false} SameSelection(g: FQ.Filters, filters: Value, ds: seq<FQ.Dimension>)
    requires forall d :: FQ.Present(g, d) <==> Sent(filters, d)
    ensures FQ.Selected(g, ds) == Appended(filters, ds)
    decreases |ds|
  {
    if ds != [] {
      SameSelection(g, filters, ds[..|ds| - 1]);
    }
  }

  /** The client and the server agree: a filter reaches the SQL exactly when the
      client sent it, with the text the client sent, and the selected
      dimensions are the ones the client appended, in the same order.  This
      needs every truthy filter to have a non-empty string form (an empty
      array is truthy but is sent as the empty string, which the server drops). */
  lemma ClientServerAgree(filters: Value, str: Value -> string)
    requires forall d :: Sent(filters, d) ==> str(Get(filters, Key(d))) != ""
    ensures var g := ServerFilters(QueryParams(filters, str));
      && (forall d :: FQ.Present(g, d) <==> Sent(filters, d))
      && (forall d :: Sent(filters, d) ==> FQ.FilterValue(g, d) == Str(str(Get(filters, Key(d)))))
      && FQ.Selected(g, FQ.Dimensions) == Appended(filters, FQ.Dimensions)
  {
    var g := ServerFilters(QueryParams(filters, str));
    forall d
      ensures FQ.Present(g, d) <==> Sent(filters, d)
      ensures Sent(filters, d) ==> FQ.FilterValue(g, d) == Str(str(Get(filters, Key(d))))
    {
      AgreeOn(filters, str, d);
    }
    SameSelection(g, filters, FQ.Dimensions);
  }

  /** The server reads back, for one dimension, what the client sent for it. */
  lemma AgreeOn(filters: Value, str: Value -> string, d: FQ.Dimension)
    ensures FQ.FilterValue(ServerFilters(QueryParams(filters, str)), d)
            == if Sent(filters, d) then Str(str(Get(filters, Key(d)))) else Undefined
  {
    var q := QueryParams(filters, str);
    ServerValueIsQueryValue(q, d);
    LookupEntries(filters, Appended(filters, FQ.Dimensions), str, d);
    AppendedMembers(filters, FQ.Dimensions, d);
    assert FQ.Dimensions[FQ.Rank(d)] == d;
  }

  /** The keys sent are in the server's order and each key is sent once. */
  lemma QueryKeysInOrder(filters: Value, str: Value -> string)
    ensures FQ.InRouteOrder(Appended(filters, FQ.Dimensions))
  {
    FQ.DimensionsInRouteOrder();
    AppendedOrdered(filters, FQ.Dimensions);
  }

  // ---------------------------------------------------------------------------
  // Record normalisation

  /** A record as the chart receives it; `location` only in the filtered map. */
  datatype Normalised = Normalised(
    id: Value, date: string, co2Level: Value, co2e: Value, energy: Value, energyUnit: Value,
    co2eUnit: Value, temperature: Value, location: Option<Value>, activity: Value, activityType: Value)

  /** The map of `getCO2Data`; `dateText` is `new Date(x).toLocaleDateString()`. */
  function Normalise(record: Value, dateText: Value -> string): (r: Normalised)
    ensures r.id == Get(record, "id") && r.date == dateText(Get(record, "created_at"))
    ensures r.co2Level == Get(record, "co2e") && r.co2e == Get(record, "co2e")
    ensures r.energy == Get(record, "energy") && r.energyUnit == Get(record, "energy_unit")
    ensures Truthy(r.co2eUnit) && Truthy(r.temperature) && Truthy(r.activity) && r.activityType == r.activity
    ensures Truthy(Get(record, "co2e_unit")) ==> r.co2eUnit == Get(record, "co2e_unit")
    ensures !Truthy(Get(record, "co2e_unit")) ==> r.co2eUnit == Str("kg")
    ensures Truthy(Get(record, "temperature")) ==> r.temperature == Get(record, "temperature")
    ensures !Truthy(Get(record, "temperature")) ==> r.temperature == Str("N/A")
    ensures Truthy(Get(record, "activity_type")) ==> r.activity == Get(record, "activity_type")
    ensures !Truthy(Get(record, "activity_type")) ==> r.activity == Str("electricity")
    ensures r.location.None?
  {
    Normalised(
      Get(record, "id"), dateText(Get(record, "created_at")), Get(record, "co2e"), Get(record, "co2e"),
      Get(record, "energy"), Get(record, "energy_unit"), Or(Get(record, "co2e_unit"), Str("kg")),
      Or(Get(record, "temperature"), Str("N/A")), None,
      Or(Get(record, "activity_type"), Str("electricity")), Or(Get(record, "activity_type"), Str("electricity")))
  }

  /** The map of `getFilteredCO2Data`: the same fields plus the location. */
  function NormaliseFiltered(record: Value, dateText: Value -> string): (r: Normalised)
    ensures r.(location := None) == Normalise(record, dateText)
    ensures r.location.Some? && Truthy(r.location.value)
    ensures Truthy(Get(record, "location")) ==> r.location == Some(Get(record, "location"))
    ensures !Truthy(Get(record, "location")) ==> r.location == Some(Str("Unknown"))
  {
    Normalise(record, dateText).(location := Some(Or(Get(record, "location"), Str("Unknown"))))
  }

  /** The object literal a normalised record is built as. */
  function AsObject(n: Normalised): (v: Value)
    ensures v.Obj?
    ensures "created_at" !in v.fields && "timestamp" !in v.fields
    ensures Get(v, "date") == Str(n.date) && Get(v, "co2_level") == n.co2Level && Get(v, "co2e") == n.co2e
    ensures Get(v, "energy") == n.energy
    ensures "location" in v.fields <==> n.location.Some?
  {
    var fields := map[
      "id" := n.id, "date" := Str(n.date), "co2_level" := n.co2Level, "co2e" := n.co2e, "energy" := n.energy,
      "energy_unit" := n.energyUnit, "co2e_unit" := n.co2eUnit, "temperature" := n.temperature,
      "activity" := n.activity, "activity_type" := n.activityType];
    Obj(match n.location case None => fields case Some(l) => fields["location" := l])
  }

  /** A measured temperature of 0 is shown as "N/A", like a missing one. */
  lemma ZeroTemperatureIsNA(record: Value, dateText: Value -> string)
    requires Get(record, "temperature") == Number(Finite(0.0))
    ensures Normalise(record, dateText).temperature == Str("N/A")
    ensures NormaliseFiltered(record, dateText).temperature == Str("N/A")
  {
  }

  /** `data.map(...)`: a null or undefined element makes the callback throw. */
  predicate Mappable(items: seq<Value>)
  {
    forall i :: 0 <= i < |items| ==> NotNullish(items[i])
  }

  function NormaliseAll(items: seq<Value>, dateText: Value -> string, withLocation: bool): (r: seq<Normalised>)
    ensures |r| == |items|
    ensures forall i :: 0 <= i < |items| ==>
      r[i] == if withLocation then NormaliseFiltered(items[i], dateText) else Normalise(items[i], dateText)
  {
    seq(|items|, i requires 0 <= i < |items| =>
      if withLocation then NormaliseFiltered(items[i], dateText) else Normalise(items[i], dateText))
  }

  /** What either fetch returns for the response data: the normalised array, or
      `[]` when the request threw, the data is not an array or an element
      cannot be read. */
  function NormaliseResponse(data: Option<Value>, dateText: Value -> string, withLocation: bool)
    : (r: seq<Normalised>)
    ensures data.None? || !data.value.Arr? || !Mappable(data.value.items) ==> r == []
    ensures data.Some? && data.value.Arr? && Mappable(data.value.items) ==>
      r == NormaliseAll(data.value.items, dateText, withLocation)
  {
    if data.Some? && data.value.Arr? && Mappable(data.value.items) then
      NormaliseAll(data.value.items, dateText, withLocation)
    else []
  }

  /** `getCO2Data`: one chart record per stored estimate, in the order received. */
  function GetCO2Data(data: Option<Value>, dateText: Value -> string): (r: seq<Normalised>)
    ensures data.Some? && data.value.Arr? && Mappable(data.value.items) ==>
      |r| == |data.value.items| &&
      forall i :: 0 <= i < |r| ==> r[i].co2Level == r[i].co2e == Get(data.value.items[i], "co2e")
    ensures !(data.Some? && data.value.Arr?) ==> r == []
  {
    NormaliseResponse(data, dateText, false)
  }

  /** `getFilteredCO2Data`: builds the query string, fetches, normalises.  A
      `null` filter object throws on its first property read and gives `[]`. */
  method GetFilteredCO2Data(filters: Value, str: Value -> string,
                            fetch: seq<(string, string)> -> Option<Value>, dateText: Value -> string)
    returns (r: seq<Normalised>)
    ensures filters.Null? ==> r == []
    ensures !filters.Null? ==> r == NormaliseResponse(fetch(QueryParams(filters, str)), dateText, true)
  {
    if filters.Null? {
      return [];
    }
    var q := BuildQueryParams(filters, str);
    r := NormaliseResponse(fetch(q), dateText, true);
  }

  // ---------------------------------------------------------------------------
  // saveCO2Estimate

  /** `{ ...data, user_id: userId || null, activity_type: data.activity_type || "electricity" }`,
      `storedUserId` being `localStorage.getItem("user_id")`. */
  function SavePayload(data: map<string, Value>, storedUserId: Option<string>): (r: map<string, Value>)
    ensures r.Keys == data.Keys + {"user_id", "activity_type"}
    ensures forall k :: k in data && k != "user_id" && k != "activity_type" ==> r[k] == data[k]
    ensures storedUserId.Some? && storedUserId.value != "" ==> r["user_id"] == Str(storedUserId.value)
    ensures storedUserId.None? || storedUserId.value == "" ==> r["user_id"] == Null
    ensures Truthy(r["activity_type"])
    ensures "activity_type" in data && Truthy(data["activity_type"]) ==> r["activity_type"] == data["activity_type"]
    ensures !("activity_type" in data && Truthy(data["activity_type"])) ==> r["activity_type"] == Str("electricity")
  {
    var userId := match storedUserId case None => Null case Some(s) => Str(s);
    data["user_id" := Or(userId, Null)]["activity_type" := Or(Get(Obj(data), "activity_type"), Str("electricity"))]
  }

  /** The client's default and `/store-estimate`'s default agree: the activity
      the server stores for the payload is the one the client would have
      stored for the original data. */
  lemma PayloadActivityAsStored(data: map<string, Value>, storedUserId: Option<string>)
    ensures var p := SavePayload(data, storedUserId);
      Or(Get(Obj(p), "activity_type"), Str("electricity")) == Or(Get(Obj(data), "activity_type"), Str("electricity"))
  {
  }

  // ---------------------------------------------------------------------------
  // getRealTimeCO2Data

  const ElectricityId: string := "electricity-supply_grid-source_residual_mix"
  const CarId: string := "passenger_vehicle-vehicle_type_car-fuel_source_gasoline-distance_na-engine_size_na"
  const FlightId: string := "flight-type_na-distance_na-class_na-rf_included"

  /** `activityIds[activity] || activityIds.electricity`. */
  function EmissionFactorId(activity: Value): (id: string)
    ensures id == ElectricityId || id == CarId || id == FlightId
    ensures id == CarId <==> activity == Str("car")
    ensures id == FlightId <==> activity == Str("flight")
  {
    if activity == Str("car") then CarId
    else if activity == Str("flight") then FlightId
    else ElectricityId
  }

  /** `calculateLocalCO2`: the body `{ energy: Number(energy), … }` answered by
      `/calculate`; a 400 makes axios throw. */
  function LocalResult(energy: Value, unit: Value, activity: Value, toNumber: string -> Num): (r: Option<Value>)
    ensures r.None? <==> Emissions.Calculate(Number(ToNumber(energy, toNumber)), unit, activity, toNumber).MissingParameters?
    ensures r.Some? ==>
      var c := Emissions.Calculate(Number(ToNumber(energy, toNumber)), unit, activity, toNumber);
      Get(r.value, "co2e") == Number(c.co2e) && Get(r.value, "co2e_unit") == Str("kg")
  {
    match Emissions.Calculate(Number(ToNumber(energy, toNumber)), unit, activity, toNumber)
    case MissingParameters => None
    case Calculated(co2e, u) => Some(Obj(map["co2e" := Number(co2e), "co2e_unit" := Str(u)]))
  }

  /** The record handed to `saveCO2Estimate` after a calculation. */
  function SaveRecord(energy: Value, unit: Value, result: Value, activity: Value, toNumber: string -> Num)
    : (r: map<string, Value>)
    ensures r.Keys == {"energy", "energy_unit", "co2e", "co2e_unit", "activity_type"}
    ensures r["energy"] == Number(ToNumber(energy, toNumber)) && r["energy_unit"] == unit
    ensures r["co2e"] == Get(result, "co2e") && r["activity_type"] == activity
    ensures Truthy(r["co2e_unit"])
    ensures Truthy(Get(result, "co2e_unit")) ==> r["co2e_unit"] == Get(result, "co2e_unit")
    ensures !Truthy(Get(result, "co2e_unit")) ==> r["co2e_unit"] == Str("kg")
  {
    map["energy" := Number(ToNumber(energy, toNumber)), "energy_unit" := unit, "co2e" := Get(result, "co2e"),
        "co2e_unit" := Or(Get(result, "co2e_unit"), Str("kg")), "activity_type" := activity]
  }

  /** The call either answers a value (and attempts to save `record`) or throws.
      A failed save is caught where it happens and does not reach the answer,
      so its outcome is not an input here. */
  datatype Outcome = Answered(value: Value, record: map<string, Value>) | Threw

  function DefaultTo(v: Value, d: Value): Value
  {
    if v.Undefined? then d else v
  }

  /** The local calculation, saved and returned; it throws when `/calculate` refuses. */
  function Fallback(energy: Value, unit: Value, activity: Value, toNumber: string -> Num): (r: Outcome)
    ensures r.Threw? <==> LocalResult(energy, unit, activity, toNumber).None?
    ensures r.Answered? ==>
      r.value == LocalResult(energy, unit, activity, toNumber).value &&
      r.record == SaveRecord(energy, unit, r.value, activity, toNumber)
  {
    match LocalResult(energy, unit, activity, toNumber)
    case None => Threw
    case Some(l) => Answered(l, SaveRecord(energy, unit, l, activity, toNumber))
  }

  /** `getRealTimeCO2Data`: with an API key the external estimate is tried
      first (a thrown call, or data without properties, falls back); without
      one the local calculation is used directly. */
  function RealTime(energy: Value, unit: Value, activity: Value, apiKey: Value,
                    climatiq: (string, Num, Value) -> Option<Value>, toNumber: string -> Num): (r: Outcome)
    ensures var e, u, a := DefaultTo(energy, Number(Finite(100.0))), DefaultTo(unit, Str("kWh")),
                           DefaultTo(activity, Str("electricity"));
      var external := climatiq(EmissionFactorId(a), ToNumber(e, toNumber), u);
      && (!Truthy(apiKey) ==> r == Fallback(e, u, a, toNumber))
      && (Truthy(apiKey) && (external.None? || !NotNullish(external.value)) ==> r == Fallback(e, u, a, toNumber))
      && (Truthy(apiKey) && external.Some? && NotNullish(external.value) ==>
            r == Answered(external.value, SaveRecord(e, u, external.value, a, toNumber)))
  {
    var e, u, a := DefaultTo(energy, Number(Finite(100.0))), DefaultTo(unit, Str("kWh")),
                   DefaultTo(activity, Str("electricity"));
    if Truthy(apiKey) then
      match climatiq(EmissionFactorId(a), ToNumber(e, toNumber), u)
      case Some(data) =>
        if NotNullish(data) then Answered(data, SaveRecord(e, u, data, a, toNumber)) else Fallback(e, u, a, toNumber)
      case None => Fallback(e, u, a, toNumber)
    else Fallback(e, u, a, toNumber)
  }

  /** Without an API key, a non-zero numeric energy with a unit and an activity
      gets the `/calculate` estimate, and the record saved carries that same
      estimate in kilograms. */
  lemma LocalAnswerIsCalculate(x: real, unit: Value, activity: Value, apiKey: Value,
                               climatiq: (string, Num, Value) -> Option<Value>, toNumber: string -> Num)
    requires x != 0.0 && Truthy(unit) && Truthy(activity) && !Truthy(apiKey)
    ensures var r := RealTime(Number(Finite(x)), unit, activity, apiKey, climatiq, toNumber);
      && r.Answered?
      && Get(r.value, "co2e") == Number(Finite(x * Emissions.ActivityFactor(activity)))
      && r.record["co2e"] == Get(r.value, "co2e")
      && r.record["co2e_unit"] == Str("kg")
      && r.record["activity_type"] == activity
  {
  }

  /** A failing external service is indistinguishable from having no key. */
  lemma ExternalFailureFallsBack(energy: Value, unit: Value, activity: Value, apiKey: Value,
                                 climatiq: (string, Num, Value) -> Option<Value>, toNumber: string -> Num)
    requires Truthy(apiKey)
    requires forall id, n, u :: climatiq(id, n, u).None?
    ensures RealTime(energy, unit, activity, apiKey, climatiq, toNumber)
            == RealTime(energy, unit, activity, Str(""), climatiq, toNumber)
  {
  }
}
