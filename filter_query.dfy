/** The filtered-estimates route of backend/routes/co2Routes.js: starting from a
    fixed base query, each recognised filter that is present appends one
    `AND … ?` fragment to the SQL text and pushes one bound parameter, in a
    fixed order, and the query ends with `ORDER BY`. */
module FilterQuery {
  import opened JsValues

  /** The eight recognised filter dimensions. */
  datatype Dimension =
    | Location | MinEmission | MaxEmission | MinTemp | MaxTemp | StartDate | EndDate | ActivityType

  /** The order in which the route tests the dimensions. */
  const Dimensions: seq<Dimension> :=
    [Location, MinEmission, MaxEmission, MinTemp, MaxTemp, StartDate, EndDate, ActivityType]

  /** The recognised keys of `req.query`; an absent key is `Undefined`. */
  datatype Filters = Filters(
    location: Value, minEmission: Value, maxEmission: Value, minTemp: Value,
    maxTemp: Value, startDate: Value, endDate: Value, activityType: Value)

  /** A bound parameter: the request value unchanged, or its `parseFloat`. */
  datatype Param = Text(v: Value) | Float(n: Num)

  /** The base query, clause by clause: every estimate with its owner's location. */
  const Projection: string := "SELECT e.*, u.location_id"
  const Estimates: string := " FROM co2_estimates e"
  const Owners: string := " LEFT JOIN users u ON e.user_id = u.id"
  const Always: string := " WHERE 1=1"
  const BaseQuery: string := Projection + Estimates + Owners + Always

  const OrderClause: string := " ORDER BY e.created_at DESC"

  function FilterValue(f: Filters, d: Dimension): Value
  {
    match d
    case Location => f.location
    case MinEmission => f.minEmission
    case MaxEmission => f.maxEmission
    case MinTemp => f.minTemp
    case MaxTemp => f.maxTemp
    case StartDate => f.startDate
    case EndDate => f.endDate
    case ActivityType => f.activityType
  }

  /** A filter takes part in the query exactly when its value is truthy. */
  predicate Present(f: Filters, d: Dimension)
  {
    Truthy(FilterValue(f, d))
  }

  /** The bounds on emission and temperature are bound as numbers. */
  predicate IsNumeric(d: Dimension)
  {
    d == MinEmission || d == MaxEmission || d == MinTemp || d == MaxTemp
  }

  /** The column test of each dimension, up to its placeholder. */
  function Condition(d: Dimension): string
  {
    match d
    case Location => "u.location_id = "
    case MinEmission => "e.co2e >= "
    case MaxEmission => "e.co2e <= "
    case MinTemp => "e.temperature >= "
    case MaxTemp => "e.temperature <= "
    case StartDate => "e.created_at >= "
    case EndDate => "e.created_at <= "
    case ActivityType => "e.activity_type = "
  }

  /** The constant SQL fragment for each dimension, e.g. `" AND e.co2e >= ?"`. */
  function Fragment(d: Dimension): string
  {
    " AND " + Condition(d) + "?"
  }

  /** The parameter bound for a present dimension. */
  function Bind(f: Filters, d: Dimension, parse: string -> Num): Param
  {
    if IsNumeric(d) then Float(ParseFloat(FilterValue(f, d), parse)) else Text(FilterValue(f, d))
  }

  /** Position of a dimension in the route's fixed order. */
  function Rank(d: Dimension): (k: nat)
    ensures k < |Dimensions| && Dimensions[k] == d
  {
    match d
    case Location => 0
    case MinEmission => 1
    case MaxEmission => 2
    case MinTemp => 3
    case MaxTemp => 4
    case StartDate => 5
    case EndDate => 6
    case ActivityType => 7
  }

  /** `[d]` when filter `d` is present, otherwise nothing. */
  function Opt(f: Filters, d: Dimension): seq<Dimension>
  {
    if Present(f, d) then [d] else []
  }

  /** The dimensions of `ds` that are present in `f`, in the order of `ds`. */
  function Selected(f: Filters, ds: seq<Dimension>): seq<Dimension>
  {
    if ds == [] then [] else Selected(f, ds[..|ds| - 1]) + Opt(f, ds[|ds| - 1])
  }

  /** `sql` followed by the SQL fragments of `ds`, appended one at a time. */
  function WithClauses(sql: string, ds: seq<Dimension>): string
  {
    if ds == [] then sql else WithClauses(sql, ds[..|ds| - 1]) + Fragment(ds[|ds| - 1])
  }

  /** The parameters bound for `ds`, in order. */
  function Binds(f: Filters, ds: seq<Dimension>, parse: string -> Num): seq<Param>
  {
    if ds == [] then [] else Binds(f, ds[..|ds| - 1], parse) + [Bind(f, ds[|ds| - 1], parse)]
  }

  /** The SQL text the route sends for filters `f`. */
  function FilterSql(f: Filters): string
  {
    WithClauses(BaseQuery, Selected(f, Dimensions)) + OrderClause
  }

  /** The bound parameters the route sends for filters `f`. */
  function FilterParams(f: Filters, parse: string -> Num): seq<Param>
  {
    Binds(f, Selected(f, Dimensions), parse)
  }

  /** The route's query builder: the eight conditionals of the handler, in order. */
  method BuildFilterQuery(f: Filters, parse: string -> Num) returns (sql: string, params: seq<Param>)
    ensures sql == FilterSql(f)
    ensures params == FilterParams(f, parse)
  {
    sql := BaseQuery;
    params := [];
    ghost var sel: seq<Dimension> := [];
    sql, params := ApplyFilter(f, Location, sql, params, parse, sel);
    sel := sel + Opt(f, Location);
    sql, params := ApplyFilter(f, MinEmission, sql, params, parse, sel);
    sel := sel + Opt(f, MinEmission);
    sql, params := ApplyFilter(f, MaxEmission, sql, params, parse, sel);
    sel := sel + Opt(f, MaxEmission);
    sql, params := ApplyFilter(f, MinTemp, sql, params, parse, sel);
    sel := sel + Opt(f, MinTemp);
    sql, params := ApplyFilter(f, MaxTemp, sql, params, parse, sel);
    sel := sel + Opt(f, MaxTemp);
    sql, params := ApplyFilter(f, StartDate, sql, params, parse, sel);
    sel := sel + Opt(f, StartDate);
    sql, params := ApplyFilter(f, EndDate, sql, params, parse, sel);
    sel := sel + Opt(f, EndDate);
    sql, params := ApplyFilter(f, ActivityType, sql, params, parse, sel);
    sel := sel + Opt(f, ActivityType);
    SelectedAll(f);
    sql := sql + OrderClause;
  }

  /** One conditional of the handler: a present filter appends its fragment to
      the text and pushes its parameter; an absent one changes nothing. */
  method ApplyFilter(f: Filters, d: Dimension, sql: string, params: seq<Param>, parse: string -> Num,
                     ghost sel: seq<Dimension>)
    returns (sql': string, params': seq<Param>)
    requires sql == WithClauses(BaseQuery, sel) && params == Binds(f, sel, parse)
    ensures sql' == WithClauses(BaseQuery, sel + Opt(f, d))
    ensures params' == Binds(f, sel + Opt(f, d), parse)
  {
    if Present(f, d) {
      sql' := sql + Fragment(d);
      params' := params + [Bind(f, d, parse)];
      WithClausesSnoc(BaseQuery, sel, d);
      BindsSnoc(f, sel, d, parse);
    } else {
      sql', params' := sql, params;
      assert sel + Opt(f, d) == sel;
    }
  }

  /** The eight tests of the handler select exactly `Selected(f, Dimensions)`. */
  lemma SelectedAll(f: Filters)
    ensures Selected(f, Dimensions) == [] + Opt(f, Location) + Opt(f, MinEmission) + Opt(f, MaxEmission) + Opt(f, MinTemp) + Opt(f, MaxTemp) + Opt(f, StartDate) + Opt(f, EndDate) + Opt(f, ActivityType)
  {
    var ds: seq<Dimension> := [];
    SelectedSnoc(f, ds, Location);
    ds := ds + [Location];
    SelectedSnoc(f, ds, MinEmission);
    ds := ds + [MinEmission];
    SelectedSnoc(f, ds, MaxEmission);
    ds := ds + [MaxEmission];
    SelectedSnoc(f, ds, MinTemp);
    ds := ds + [MinTemp];
    SelectedSnoc(f, ds, MaxTemp);
    ds := ds + [MaxTemp];
    SelectedSnoc(f, ds, StartDate);
    ds := ds + [StartDate];
    SelectedSnoc(f, ds, EndDate);
    ds := ds + [EndDate];
    SelectedSnoc(f, ds, ActivityType);
    ds := ds + [ActivityType];
    assert ds == Dimensions;
  }

  lemma SelectedSnoc(f: Filters, ds: seq<Dimension>, d: Dimension)
    ensures Selected(f, ds + [d]) == Selected(f, ds) + Opt(f, d)
  {
    assert (ds + [d])[..|ds|] == ds;
  }

  lemma WithClausesSnoc(sql: string, ds: seq<Dimension>, d: Dimension)
    ensures WithClauses(sql, ds + [d]) == WithClauses(sql, ds) + Fragment(d)
  {
    assert (ds + [d])[..|ds|] == ds;
  }

  lemma BindsSnoc(f: Filters, ds: seq<Dimension>, d: Dimension, parse: string -> Num)
    ensures Binds(f, ds + [d], parse) == Binds(f, ds, parse) + [Bind(f, d, parse)]
  {
    assert (ds + [d])[..|ds|] == ds;
  }

  /** A dimension is selected exactly when it is listed and present. */
  lemma {:induction false} SelectedMembers(f: Filters, ds: seq<Dimension>, d: Dimension)
    ensures d in Selected(f, ds) <==> d in ds && Present(f, d)
    decreases |ds|
  {
    if ds != [] {
      SelectedMembers(f, ds[..|ds| - 1], d);
      assert ds == ds[..|ds| - 1] + [ds[|ds| - 1]];
    }
  }

  /** Dimensions listed in strictly increasing route order. */
  predicate InRouteOrder(ds: seq<Dimension>)
  {
    forall i, j :: 0 <= i < j < |ds| ==> Rank(ds[i]) < Rank(ds[j])
  }

  /** Selection keeps the route's order. */
  lemma {:induction false} SelectedOrdered(f: Filters, ds: seq<Dimension>)
    requires InRouteOrder(ds)
    ensures InRouteOrder(Selected(f, ds))
    decreases |ds|
  {
    if ds != [] {
      var init, last := ds[..|ds| - 1], ds[|ds| - 1];
      SelectedOrdered(f, init);
      var s := Selected(f, init);
      forall i | 0 <= i < |s|
        ensures Rank(s[i]) < Rank(last)
      {
        SelectedMembers(f, init, s[i]);
        var k :| 0 <= k < |init| && init[k] == s[i];
        assert ds[k] == s[i];
      }
    }
  }

  /** The route's own order is strictly increasing. */
  lemma DimensionsInRouteOrder()
    ensures InRouteOrder(Dimensions)
  {
    forall i, j | 0 <= i < j < |Dimensions|
      ensures Rank(Dimensions[i]) < Rank(Dimensions[j])
    {
    }
  }

  /** One parameter per selected dimension, bound as `Bind` says. */
  lemma {:induction false} BindsShape(f: Filters, ds: seq<Dimension>, parse: string -> Num)
    ensures |Binds(f, ds, parse)| == |ds|
    ensures forall i :: 0 <= i < |ds| ==> Binds(f, ds, parse)[i] == Bind(f, ds[i], parse)
    decreases |ds|
  {
    if ds != [] {
      BindsShape(f, ds[..|ds| - 1], parse);
    }
  }

  /** The number of `?` placeholders in an SQL text. */
  function Placeholders(s: string): (n: nat)
    ensures n <= |s|
  {
    if s == [] then 0 else Placeholders(s[..|s| - 1]) + (if s[|s| - 1] == '?' then 1 else 0)
  }

  lemma {:induction false} PlaceholdersAppend(a: string, b: string)
    ensures Placeholders(a + b) == Placeholders(a) + Placeholders(b)
    decreases |b|
  {
    if b == [] {
      assert a + b == a;
    } else {
      PlaceholdersAppend(a, b[..|b| - 1]);
      assert (a + b)[..|a + b| - 1] == a + b[..|b| - 1];
    }
  }

  lemma {:induction false} NoPlaceholders(s: string)
    requires '?' !in s
    ensures Placeholders(s) == 0
    decreases |s|
  {
    if s != [] {
      assert s == s[..|s| - 1] + [s[|s| - 1]];
      NoPlaceholders(s[..|s| - 1]);
    }
  }

  /** The base query carries no placeholder. */
  lemma BasePlaceholders()
    ensures Placeholders(BaseQuery) == 0
  {
    SourcePlaceholders();
    NoPlaceholders(Owners);
    NoPlaceholders(Always);
    PlaceholdersAppend(Projection + Estimates, Owners);
    PlaceholdersAppend(Projection + Estimates + Owners, Always);
  }

  lemma SourcePlaceholders()
    ensures Placeholders(Projection + Estimates) == 0
  {
    NoPlaceholders(Projection);
    NoPlaceholders(Estimates);
    PlaceholdersAppend(Projection, Estimates);
  }

  /** Each fragment carries exactly one placeholder, at its end. */
  lemma FragmentPlaceholders(d: Dimension)
    ensures Placeholders(Fragment(d)) == 1
    ensures Fragment(d)[|Fragment(d)| - 1] == '?'
  {
    NoPlaceholders(" AND ");
    NoPlaceholders(Condition(d));
    PlaceholdersAppend(" AND ", Condition(d));
    PlaceholdersAppend(" AND " + Condition(d), "?");
  }

  /** Appending the fragments of `ds` adds one placeholder per dimension. */
  lemma {:induction false} WithClausesPlaceholders(sql: string, ds: seq<Dimension>)
    ensures Placeholders(WithClauses(sql, ds)) == Placeholders(sql) + |ds|
    decreases |ds|
  {
    if ds != [] {
      WithClausesPlaceholders(sql, ds[..|ds| - 1]);
      FragmentPlaceholders(ds[|ds| - 1]);
      PlaceholdersAppend(WithClauses(sql, ds[..|ds| - 1]), Fragment(ds[|ds| - 1]));
    }
  }

  /** The query text and the parameter list always agree in number. */
  lemma PlaceholdersMatchParams(f: Filters, parse: string -> Num)
    ensures Placeholders(FilterSql(f)) == |FilterParams(f, parse)|
  {
    var sel := Selected(f, Dimensions);
    BasePlaceholders();
    NoPlaceholders(OrderClause);
    WithClausesPlaceholders(BaseQuery, sel);
    PlaceholdersAppend(WithClauses(BaseQuery, sel), OrderClause);
    BindsShape(f, sel, parse);
  }

  /** The query's parameters: one per present filter, in route order, the four
      numeric bounds through `parseFloat` and the others as sent. */
  lemma FilterParamsShape(f: Filters, parse: string -> Num)
    ensures var sel := Selected(f, Dimensions);
      && |FilterParams(f, parse)| == |sel|
      && (forall d :: d in sel <==> Present(f, d))
      && InRouteOrder(sel)
      && (forall i :: 0 <= i < |sel| && IsNumeric(sel[i]) ==>
            FilterParams(f, parse)[i] == Float(ParseFloat(FilterValue(f, sel[i]), parse)))
      && (forall i :: 0 <= i < |sel| && !IsNumeric(sel[i]) ==>
            FilterParams(f, parse)[i] == Text(FilterValue(f, sel[i])))
  {
    var sel := Selected(f, Dimensions);
    BindsShape(f, sel, parse);
    forall d
      ensures d in sel <==> Present(f, d)
    {
      SelectedMembers(f, Dimensions, d);
      assert Dimensions[Rank(d)] == d;
    }
    DimensionsInRouteOrder();
    SelectedOrdered(f, Dimensions);
  }

  /** With no recognised filter the route runs the base query, ordered, unbound. */
  lemma NoFilters(f: Filters, parse: string -> Num)
    requires forall d :: !Present(f, d)
    ensures FilterSql(f) == BaseQuery + OrderClause
    ensures FilterParams(f, parse) == []
  {
    SelectedAll(f);
  }

  /** The query text depends only on which filters are present, never on the
      values sent: request text reaches the database only as bound parameters. */
  lemma {:induction false} SqlDependsOnlyOnPresence(f: Filters, g: Filters, ds: seq<Dimension>)
    requires forall d :: Present(f, d) <==> Present(g, d)
    ensures Selected(f, ds) == Selected(g, ds)
    ensures WithClauses(BaseQuery, Selected(f, ds)) == WithClauses(BaseQuery, Selected(g, ds))
    decreases |ds|
  {
    if ds != [] {
      SqlDependsOnlyOnPresence(f, g, ds[..|ds| - 1]);
    }
  }

  /** Two requests with the same filters present get the same SQL text. */
  lemma SameShapeSameSql(f: Filters, g: Filters)
    requires forall d :: Present(f, d) <==> Present(g, d)
    ensures FilterSql(f) == FilterSql(g)
  {
    SqlDependsOnlyOnPresence(f, g, Dimensions);
  }
}
