/** The data preparation of frontend/src/pages/CO2TrendChart.jsx: the no-data
    check, the date-field fallback chain, the conversion of each record to a
    chart point (kept in the order received) and the choice to draw the energy
    line.  `Date` construction and locale formatting are foreign and come in as
    a `Calendar`. */
module TrendChart {
  import opened JsValues
  import opened Wrappers
  import ClientApi

  /** `new Date(ms)` and `new Date(value)` as time values (`None` for an
      invalid date), `getFullYear()` and `toLocaleDateString()`. */
  datatype Calendar = Calendar(
    fromNumber: real -> Option<int>, parse: Value -> Option<int>, year: int -> int, format: int -> string)

  /** The fields `getDateValue` tries, in order; the last two read `record.meta`. */
  function DateCandidates(record: Value): (c: seq<Value>)
    ensures |c| == 9
  {
    var meta := Get(record, "meta");
    [Get(record, "created_at"), Get(record, "timestamp"), Get(record, "date"), Get(record, "day"),
     Get(record, "recorded_at"), Get(record, "time"), Get(record, "datetime"),
     And(meta, Get(meta, "date")), And(meta, Get(meta, "timestamp"))]
  }

  /** `c[0] || c[1] || … || c[n-1]`: the first truthy value, or the last
      value when none is truthy. */
  function FirstTruthy(c: seq<Value>): (r: Value)
    requires c != []
    ensures Truthy(r) <==> exists k :: 0 <= k < |c| && Truthy(c[k])
    ensures Truthy(r) ==> exists k :: 0 <= k < |c| && r == c[k] && forall j :: 0 <= j < k ==> !Truthy(c[j])
    ensures !Truthy(r) ==> r == c[|c| - 1]
  {
    if |c| == 1 then c[0]
    else
      var rest := FirstTruthy(c[1..]);
      assert forall k :: 0 < k < |c| ==> c[k] == c[1..][k - 1];
      Or(c[0], rest)
  }

  /** `getDateValue(record)`: the first truthy date field, or the last
      candidate (falsy) when there is none. */
  function DateValue(record: Value): (v: Value)
    ensures Truthy(v) <==> exists k :: 0 <= k < 9 && Truthy(DateCandidates(record)[k])
    ensures Truthy(v) ==>
      exists k :: 0 <= k < 9 && v == DateCandidates(record)[k] && forall i :: 0 <= i < k ==> !Truthy(DateCandidates(record)[i])
    ensures !Truthy(v) ==> v == DateCandidates(record)[8]
  {
    FirstTruthy(DateCandidates(record))
  }

  /** The time value of a truthy date: a number is taken as milliseconds, and
      re-read as seconds when that lands before the year 2000. */
  function ParsedTime(v: Value, cal: Calendar): (t: Option<int>)
    ensures v.Number? && v.n.Finite? && cal.fromNumber(v.n.r).Some? && cal.year(cal.fromNumber(v.n.r).value) < 2000
      ==> t == cal.fromNumber(v.n.r * 1000.0)
    ensures v.Number? && v.n.Finite? && !(cal.fromNumber(v.n.r).Some? && cal.year(cal.fromNumber(v.n.r).value) < 2000)
      ==> t == cal.fromNumber(v.n.r)
    ensures v == Number(NaN) ==> t.None?
    ensures !v.Number? ==> t == cal.parse(v)
  {
    match v
    case Number(n) =>
      (match n
       case NaN => None
       case Finite(x) =>
         var first := cal.fromNumber(x);
         if first.Some? && cal.year(first.value) < 2000 then cal.fromNumber(x * 1000.0) else first)
    case _ => cal.parse(v)
  }

  const Unknown: string := "unknown"

  /** The point's `timestamp`: "unknown" without a date or for an invalid one. */
  function DateString(v: Value, cal: Calendar): (s: string)
    ensures !Truthy(v) || ParsedTime(v, cal).None? ==> s == Unknown
    ensures Truthy(v) && ParsedTime(v, cal).Some? ==> s == cal.format(ParsedTime(v, cal).value)
  {
    if !Truthy(v) then Unknown
    else
      match ParsedTime(v, cal)
      case None => Unknown
      case Some(t) => cal.format(t)
  }

  /** `co2_level` if defined, else `co2e` if defined, else 0. */
  function Co2Source(record: Value): (v: Value)
    ensures !Get(record, "co2_level").Undefined? ==> v == Get(record, "co2_level")
    ensures Get(record, "co2_level").Undefined? && !Get(record, "co2e").Undefined? ==> v == Get(record, "co2e")
    ensures Get(record, "co2_level").Undefined? && Get(record, "co2e").Undefined? ==> v == Number(Finite(0.0))
  {
    if !Get(record, "co2_level").Undefined? then Get(record, "co2_level")
    else if !Get(record, "co2e").Undefined? then Get(record, "co2e")
    else Number(Finite(0.0))
  }

  /** One point of the chart. */
  datatype Point = Point(timestamp: string, co2Level: Num, energy: Num)

  function FormatRecord(record: Value, cal: Calendar, parse: string -> Num): (p: Point)
    ensures p.timestamp == DateString(DateValue(record), cal)
    ensures p.co2Level == ParseFloat(Co2Source(record), parse)
    ensures !Truthy(Get(record, "energy")) ==> p.energy == Finite(0.0)
    ensures Truthy(Get(record, "energy")) ==> p.energy == ParseFloat(Get(record, "energy"), parse)
  {
    Point(DateString(DateValue(record), cal), ParseFloat(Co2Source(record), parse),
          if Truthy(Get(record, "energy")) then ParseFloat(Get(record, "energy"), parse) else Finite(0.0))
  }

  /** `formattedData`: one point per record, in the order received (not sorted). */
  function FormattedData(items: seq<Value>, cal: Calendar, parse: string -> Num): (ps: seq<Point>)
    ensures |ps| == |items|
    ensures forall i :: 0 <= i < |items| ==> ps[i] == FormatRecord(items[i], cal, parse)
  {
    seq(|items|, i requires 0 <= i < |items| => FormatRecord(items[i], cal, parse))
  }

  /** `formattedData.some(d => d.energy > 0)`. */
  predicate DrawsEnergy(ps: seq<Point>)
  {
    exists i :: 0 <= i < |ps| && Greater(ps[i].energy, 0.0)
  }

  /** `!data || data.length === 0`. */
  predicate NoData(data: Value)
  {
    !Truthy(data) || (data.Arr? && |data.items| == 0) || (data.Obj? && Get(data, "length") == Number(Finite(0.0)))
  }

  /** What the component shows: the no-data message, or the points and whether
      the energy line is drawn; data that is not an array, or has an element
      that is null or undefined, makes the map throw. */
  datatype Render = NoDataMessage | Chart(points: seq<Point>, energyLine: bool) | RenderError

  function RenderChart(data: Value, cal: Calendar, parse: string -> Num): (r: Render)
    ensures r == NoDataMessage <==> NoData(data)
    ensures r.Chart? <==> !NoData(data) && data.Arr? && ClientApi.Mappable(data.items)
    ensures r.Chart? ==>
      && r.points == FormattedData(data.items, cal, parse)
      && (r.energyLine <==> DrawsEnergy(r.points))
  {
    if NoData(data) then NoDataMessage
    else if data.Arr? && ClientApi.Mappable(data.items) then
      var ps := FormattedData(data.items, cal, parse);
      Chart(ps, DrawsEnergy(ps))
    else RenderError
  }

  /** The energy line is drawn exactly when some record carries a truthy
      energy that parses to a positive number. */
  lemma {:induction false} EnergyLineIffPositiveEnergy(items: seq<Value>, cal: Calendar, parse: string -> Num)
    ensures DrawsEnergy(FormattedData(items, cal, parse)) <==>
      exists i :: 0 <= i < |items| && PositiveEnergy(items[i], parse)
  {
    var ps := FormattedData(items, cal, parse);
    if exists i :: 0 <= i < |items| && PositiveEnergy(items[i], parse) {
      var i :| 0 <= i < |items| && PositiveEnergy(items[i], parse);
      PointEnergy(items[i], cal, parse);
      assert Greater(ps[i].energy, 0.0);
    }
    if DrawsEnergy(ps) {
      var i :| 0 <= i < |ps| && Greater(ps[i].energy, 0.0);
      PointEnergy(items[i], cal, parse);
    }
  }

  /** A point's energy is positive exactly when its record's energy is. */
  lemma PointEnergy(record: Value, cal: Calendar, parse: string -> Num)
    ensures Greater(FormatRecord(record, cal, parse).energy, 0.0) <==> PositiveEnergy(record, parse)
  {
  }

  predicate PositiveEnergy(record: Value, parse: string -> Num)
  {
    Truthy(Get(record, "energy")) && Greater(ParseFloat(Get(record, "energy"), parse), 0.0)
  }

  /** A record without any date field gets the timestamp "unknown". */
  lemma UnknownWithoutDate(record: Value, cal: Calendar, parse: string -> Num)
    requires forall k :: 0 <= k < 9 ==> !Truthy(DateCandidates(record)[k])
    ensures FormatRecord(record, cal, parse).timestamp == Unknown
  {
  }

  /** A record as normalised by the client service is read by its `date`
      field (it has no `created_at` or `timestamp`), and its CO2 value is the
      record's `co2e`. */
  lemma ChartReadsNormalised(n: ClientApi.Normalised, cal: Calendar, parse: string -> Num)
    requires n.date != "" && !n.co2e.Undefined? && n.co2Level == n.co2e
    ensures var p := FormatRecord(ClientApi.AsObject(n), cal, parse);
      p.timestamp == DateString(Str(n.date), cal) && p.co2Level == ParseFloat(n.co2e, parse)
  {
    var v := ClientApi.AsObject(n);
    var c := DateCandidates(v);
    assert !Truthy(c[0]) && !Truthy(c[1]) && c[2] == Str(n.date) && Truthy(c[2]);
    assert Truthy(DateValue(v));
    var k :| 0 <= k < |c| && DateValue(v) == c[k] && forall j :: 0 <= j < k ==> !Truthy(c[j]);
    assert k == 2;
  }
}
