/** The read side of the estimate and sensor tables, as the SQL of
    backend/controllers/emissionsController.js and backend/routes/co2Routes.js
    describes it: newest-first listings, the per-user filter, the sensor read
    capped at 100 rows, and the aggregate statistics with the per-activity
    breakdown.  A table is a sequence of typed rows. */
module EstimateQueries {
  import opened Wrappers
  import opened Aggregates

  /** A stored estimate as the database returns it. */
  datatype Estimate = Estimate(id: nat, userId: nat, co2e: real, activityType: string, createdAt: int)

  /** A stored sensor reading. */
  datatype Reading = Reading(id: nat, timestamp: int, co2Level: real, temperature: real)

  function CreatedAt(e: Estimate): int { e.createdAt }
  function Timestamp(r: Reading): int { r.timestamp }

  /** `ORDER BY key DESC`. */
  ghost predicate Descending<T>(s: seq<T>, key: T -> int)
  {
    forall i, j :: 0 <= i < j < |s| ==> key(s[i]) >= key(s[j])
  }

  /** Places `x` before the first element it is not older than. */
  function InsertDesc<T>(x: T, s: seq<T>, key: T -> int): (r: seq<T>)
    ensures multiset(r) == multiset(s) + multiset{x}
    ensures Descending(s, key) ==> Descending(r, key)
  {
    if s == [] || key(x) >= key(s[0]) then
      InsertFront(x, s, key);
      [x] + s
    else
      var rest := InsertDesc(x, s[1..], key);
      assert s == [s[0]] + s[1..];
      InsertBehind(x, s, rest, key);
      [s[0]] + rest
  }

  /** When `x` goes behind the head of an ordered `s`, the head still leads. */
  lemma InsertBehind<T>(x: T, s: seq<T>, rest: seq<T>, key: T -> int)
    requires s != [] && key(x) < key(s[0])
    requires multiset(rest) == multiset(s[1..]) + multiset{x}
    requires Descending(s, key) ==> Descending(rest, key)
    ensures Descending(s, key) ==> Descending([s[0]] + rest, key)
  {
    if Descending(s, key) {
      forall y | y in rest
        ensures key(y) <= key(s[0])
      {
        assert y in multiset(rest);
        if y != x {
          var j :| 0 <= j < |s[1..]| && s[1..][j] == y;
          assert s[j + 1] == y;
        }
      }
      ConsDescending(s[0], rest, key);
    }
  }

  /** `x` in front of an ordered `s` whose head is not newer keeps the order. */
  lemma InsertFront<T>(x: T, s: seq<T>, key: T -> int)
    requires s == [] || key(x) >= key(s[0])
    ensures Descending(s, key) ==> Descending([x] + s, key)
  {
    if Descending(s, key) {
      forall y | y in s
        ensures key(y) <= key(x)
      {
        var j :| 0 <= j < |s| && s[j] == y;
      }
      ConsDescending(x, s, key);
    }
  }

  /** Putting an element in front keeps the order when it is not older than
      anything behind it. */
  lemma ConsDescending<T>(h: T, s: seq<T>, key: T -> int)
    requires Descending(s, key)
    requires forall y :: y in s ==> key(y) <= key(h)
    ensures Descending([h] + s, key)
  {
    var r := [h] + s;
    forall i, j | 0 <= i < j < |r|
      ensures key(r[i]) >= key(r[j])
    {
      assert r[j] == s[j - 1];
      if i > 0 {
        assert r[i] == s[i - 1];
      }
    }
  }

  /** The rows of `s`, newest first. */
  function SortDesc<T>(s: seq<T>, key: T -> int): (r: seq<T>)
    ensures multiset(r) == multiset(s)
    ensures Descending(r, key)
  {
    if s == [] then []
    else
      assert s == [s[0]] + s[1..];
      InsertDesc(s[0], SortDesc(s[1..], key), key)
  }

  /** `WHERE user_id = ?`, keeping table order. */
  function OfUser(rows: seq<Estimate>, uid: nat): (r: seq<Estimate>)
    ensures forall e :: e in r <==> e in rows && e.userId == uid
    ensures |r| <= |rows|
  {
    if rows == [] then []
    else
      assert rows == [rows[0]] + rows[1..];
      (if rows[0].userId == uid then [rows[0]] else []) + OfUser(rows[1..], uid)
  }

  /** The filter keeps every copy of the caller's rows and no copy of anyone
      else's. */
  lemma {:induction false} OfUserCounts(rows: seq<Estimate>, uid: nat)
    ensures forall e :: multiset(OfUser(rows, uid))[e] == if e.userId == uid then multiset(rows)[e] else 0
  {
    if rows != [] {
      OfUserCounts(rows[1..], uid);
      assert rows == [rows[0]] + rows[1..];
    }
  }

  /** `getUserEmissions`: the caller's estimates, newest first. */
  function UserEmissions(rows: seq<Estimate>, uid: nat): (r: seq<Estimate>)
    ensures forall e :: e in r <==> e in rows && e.userId == uid
    ensures multiset(r) == multiset(OfUser(rows, uid))
    ensures Descending(r, CreatedAt)
  {
    var mine := OfUser(rows, uid);
    var r := SortDesc(mine, CreatedAt);
    assert forall e :: e in r <==> e in multiset(mine);
    r
  }

  /** `/estimates` and `/data`: every estimate, newest first. */
  function AllEstimates(rows: seq<Estimate>): (r: seq<Estimate>)
    ensures multiset(r) == multiset(rows)
    ensures Descending(r, CreatedAt)
  {
    SortDesc(rows, CreatedAt)
  }

  /** `/latest`: the first row of the newest-first listing, or null. */
  function Latest(rows: seq<Estimate>): (r: Option<Estimate>)
    ensures r.None? <==> rows == []
    ensures r.Some? ==> r.value in rows && forall e :: e in rows ==> e.createdAt <= r.value.createdAt
  {
    var all := AllEstimates(rows);
    if all == [] then None
    else
      LeaderIsNewest(all, rows);
      Some(all[0])
  }

  lemma LeaderIsNewest(all: seq<Estimate>, rows: seq<Estimate>)
    requires all != [] && multiset(all) == multiset(rows) && Descending(all, CreatedAt)
    ensures all[0] in rows && forall e :: e in rows ==> e.createdAt <= all[0].createdAt
  {
    assert all[0] in multiset(all);
    forall e | e in rows
      ensures e.createdAt <= all[0].createdAt
    {
      assert e in multiset(all);
      var i :| 0 <= i < |all| && all[i] == e;
      assert i == 0 || CreatedAt(all[0]) >= CreatedAt(all[i]);
    }
  }

  /** The sensor read cap. */
  const SensorLimit: nat := 100

  /** `getCO2Data`: at most 100 readings, newest timestamp first. */
  function RecentReadings(readings: seq<Reading>): (r: seq<Reading>)
    ensures |r| == if |readings| < SensorLimit then |readings| else SensorLimit
    ensures Descending(r, Timestamp)
    ensures multiset(r) <= multiset(readings)
  {
    var all := SortDesc(readings, Timestamp);
    var n := if |all| < SensorLimit then |all| else SensorLimit;
    assert all == all[..n] + all[n..];
    assert multiset(all) == multiset(all[..n]) + multiset(all[n..]);
    all[..n]
  }

  /** No reading left out of the capped read is newer than one it returns. */
  lemma RecentReadingsAreNewest(readings: seq<Reading>, x: Reading, y: Reading)
    requires x in readings && x !in RecentReadings(readings)
    requires y in RecentReadings(readings)
    ensures x.timestamp <= y.timestamp
  {
    var all := SortDesc(readings, Timestamp);
    var n := if |all| < SensorLimit then |all| else SensorLimit;
    assert x in multiset(all);
    var k :| 0 <= k < |all| && all[k] == x;
    var i :| 0 <= i < n && all[..n][i] == y;
    assert Timestamp(all[i]) >= Timestamp(all[k]);
  }

  /** The emissions of a list of rows, in order. */
  function Emissions(rows: seq<Estimate>): (xs: seq<real>)
    ensures |xs| == |rows|
    ensures forall i :: 0 <= i < |rows| ==> xs[i] == rows[i].co2e
  {
    if rows == [] then [] else Emissions(rows[..|rows| - 1]) + [rows[|rows| - 1].co2e]
  }

  /** The single row of the statistics query; SUM, AVG, MAX and MIN are NULL
      over no rows, COUNT is 0. */
  datatype Stats = Stats(total: Option<real>, avg: Option<real>, max: Option<real>, min: Option<real>, count: nat)

  function EmissionStats(rows: seq<Estimate>, uid: nat): (s: Stats)
    ensures s.count == |OfUser(rows, uid)|
    ensures s.count == 0 <==> s.total.None?
    ensures s.total.None? <==> s.avg.None? && s.max.None? && s.min.None?
    ensures s.count > 0 ==> s.total == Some(Sum(Emissions(OfUser(rows, uid))))
    ensures s.count > 0 ==> s.avg == Some(Mean(Emissions(OfUser(rows, uid))))
  {
    var xs := Emissions(OfUser(rows, uid));
    if xs == [] then Stats(None, None, None, None, 0)
    else
      Stats(Some(Sum(xs)), Some(Mean(xs)), Some(Max(xs)), Some(Min(xs)), |xs|)
  }

  /** Over a non-empty selection the average lies between the minimum and
      the maximum. */
  lemma StatsOrdered(rows: seq<Estimate>, uid: nat)
    requires EmissionStats(rows, uid).count > 0
    ensures var s := EmissionStats(rows, uid);
      s.min.value <= s.avg.value <= s.max.value
  {
  }

  /** Every one of the caller's emissions lies between the reported extremes,
      which are themselves emissions of the caller. */
  lemma StatsExtremes(rows: seq<Estimate>, uid: nat)
    requires EmissionStats(rows, uid).count > 0
    ensures var s := EmissionStats(rows, uid);
      && (forall e :: e in rows && e.userId == uid ==> s.min.value <= e.co2e <= s.max.value)
      && (exists e :: e in rows && e.userId == uid && e.co2e == s.min.value)
      && (exists e :: e in rows && e.userId == uid && e.co2e == s.max.value)
  {
    EmissionsExtremes(OfUser(rows, uid));
  }

  /** The smallest and the largest emission of a non-empty selection bound
      every row of it and belong to rows of it. */
  lemma EmissionsExtremes(mine: seq<Estimate>)
    requires mine != []
    ensures forall e :: e in mine ==> Min(Emissions(mine)) <= e.co2e <= Max(Emissions(mine))
    ensures exists e :: e in mine && e.co2e == Min(Emissions(mine))
    ensures exists e :: e in mine && e.co2e == Max(Emissions(mine))
  {
    var xs := Emissions(mine);
    forall e | e in mine
      ensures Min(xs) <= e.co2e <= Max(xs)
    {
      var i :| 0 <= i < |mine| && mine[i] == e;
      assert xs[i] == e.co2e;
    }
    var i :| 0 <= i < |xs| && xs[i] == Min(xs);
    assert mine[i] in mine;
    var j :| 0 <= j < |xs| && xs[j] == Max(xs);
    assert mine[j] in mine;
  }

  /** One row of the `GROUP BY activity_type` query. */
  datatype Entry = Entry(activityType: string, total: real)

  function Keys(b: seq<Entry>): (ks: seq<string>)
    ensures |ks| == |b|
    ensures forall i :: 0 <= i < |b| ==> ks[i] == b[i].activityType
  {
    if b == [] then [] else Keys(b[..|b| - 1]) + [b[|b| - 1].activityType]
  }

  /** Each activity type appears in at most one entry. */
  predicate DistinctKeys(b: seq<Entry>)
  {
    forall i, j :: 0 <= i < j < |b| ==> b[i].activityType != b[j].activityType
  }

  /** The total an entry list records for type `t`, or 0 without an entry. */
  function TotalFor(b: seq<Entry>, t: string): real
  {
    if b == [] then 0.0
    else if b[|b| - 1].activityType == t then b[|b| - 1].total
    else TotalFor(b[..|b| - 1], t)
  }

  function GrandTotal(b: seq<Entry>): real
  {
    if b == [] then 0.0 else GrandTotal(b[..|b| - 1]) + b[|b| - 1].total
  }

  /** The sum of the emissions of the rows of type `t`. */
  function SumOfType(rows: seq<Estimate>, t: string): real
  {
    if rows == [] then 0.0
    else SumOfType(rows[..|rows| - 1], t) + (if rows[|rows| - 1].activityType == t then rows[|rows| - 1].co2e else 0.0)
  }

  /** Adds one row's emission to its group, opening the group at the end if needed. */
  function AddTo(b: seq<Entry>, t: string, x: real): seq<Entry>
  {
    if b == [] then [Entry(t, x)]
    else if b[|b| - 1].activityType == t then b[..|b| - 1] + [Entry(t, b[|b| - 1].total + x)]
    else AddTo(b[..|b| - 1], t, x) + [b[|b| - 1]]
  }

  lemma EntrySnoc(b: seq<Entry>, e: Entry, u: string)
    ensures (b + [e])[..|b|] == b
    ensures Keys(b + [e]) == Keys(b) + [e.activityType]
    ensures TotalFor(b + [e], u) == if e.activityType == u then e.total else TotalFor(b, u)
    ensures GrandTotal(b + [e]) == GrandTotal(b) + e.total
    ensures DistinctKeys(b + [e]) <==> DistinctKeys(b) && e.activityType !in Keys(b)
  {
    assert (b + [e])[..|b|] == b;
    if DistinctKeys(b) && e.activityType !in Keys(b) {
      forall i, j | 0 <= i < j < |b + [e]|
        ensures (b + [e])[i].activityType != (b + [e])[j].activityType
      {
        if j == |b| {
          assert Keys(b)[i] == b[i].activityType;
        }
      }
    }
    if DistinctKeys(b + [e]) {
      forall k | k in Keys(b)
        ensures k != e.activityType
      {
        var i :| 0 <= i < |b| && Keys(b)[i] == k;
        assert (b + [e])[i].activityType != (b + [e])[|b|].activityType;
      }
    }
  }

  /** Adding `x` under `t` to `b` gave `r`: the keys stay distinct, `t` joins
      them, only `t`'s total grows (by `x`), and the grand total grows by `x`. */
  ghost predicate AddedTo(b: seq<Entry>, t: string, x: real, r: seq<Entry>)
  {
    && DistinctKeys(r)
    && (forall u :: u in Keys(r) <==> u in Keys(b) || u == t)
    && (forall u :: TotalFor(r, u) == TotalFor(b, u) + (if u == t then x else 0.0))
    && GrandTotal(r) == GrandTotal(b) + x
  }

  lemma {:induction false} AddToSpec(b: seq<Entry>, t: string, x: real)
    requires DistinctKeys(b)
    ensures AddedTo(b, t, x, AddTo(b, t, x))
    decreases |b|
  {
    var r := AddTo(b, t, x);
    if b == [] {
      AddToEmpty(t, x);
    } else {
      var init, last := b[..|b| - 1], b[|b| - 1];
      assert b == init + [last];
      if last.activityType == t {
        assert r == init + [Entry(t, last.total + x)];
        AddToMerges(init, last, x);
      } else {
        assert r == AddTo(init, t, x) + [last];
        AddToSpec(init, t, x);
        AddToPasses(init, last, t, x, AddTo(init, t, x));
      }
    }
  }

  lemma AddToEmpty(t: string, x: real)
    ensures AddedTo([], t, x, [Entry(t, x)])
  {
    var r := [Entry(t, x)];
    assert r[..0] == [];
    assert Keys(r) == [t];
  }

  /** A row of the last group's type is added into that group. */
  lemma AddToMerges(init: seq<Entry>, last: Entry, x: real)
    requires DistinctKeys(init + [last])
    ensures AddedTo(init + [last], last.activityType, x, init + [Entry(last.activityType, last.total + x)])
  {
    var t := last.activityType;
    var e := Entry(t, last.total + x);
    EntrySnoc(init, last, t);
    EntrySnoc(init, e, t);
    forall u ensures TotalFor(init + [e], u) == TotalFor(init + [last], u) + (if u == t then x else 0.0) {
      EntrySnoc(init, e, u);
      EntrySnoc(init, last, u);
    }
  }

  /** A row of another type is added before the last group, which is kept. */
  lemma AddToPasses(init: seq<Entry>, last: Entry, t: string, x: real, r0: seq<Entry>)
    requires last.activityType != t && DistinctKeys(init + [last])
    requires AddedTo(init, t, x, r0)
    ensures AddedTo(init + [last], t, x, r0 + [last])
  {
    EntrySnoc(init, last, t);
    EntrySnoc(r0, last, t);
    forall u ensures TotalFor(r0 + [last], u) == TotalFor(init + [last], u) + (if u == t then x else 0.0) {
      EntrySnoc(r0, last, u);
      EntrySnoc(init, last, u);
    }
  }

  /** The rows of `GROUP BY activity_type` with `SUM(co2e)`, one per type (in
      order of first appearance). */
  function Breakdown(rows: seq<Estimate>): seq<Entry>
  {
    if rows == [] then []
    else AddTo(Breakdown(rows[..|rows| - 1]), rows[|rows| - 1].activityType, rows[|rows| - 1].co2e)
  }

  /** The activity types occurring in `rows`. */
  function ActivityTypes(rows: seq<Estimate>): set<string>
  {
    set e | e in rows :: e.activityType
  }

  lemma ActivityTypesSnoc(init: seq<Estimate>, last: Estimate)
    ensures ActivityTypes(init + [last]) == ActivityTypes(init) + {last.activityType}
  {
    var rows := init + [last];
    forall t | t in ActivityTypes(rows)
      ensures t in ActivityTypes(init) + {last.activityType}
    {
      var e :| e in rows && e.activityType == t;
      assert e in init || e == last;
    }
    forall t | t in ActivityTypes(init)
      ensures t in ActivityTypes(rows)
    {
      var e :| e in init && e.activityType == t;
      assert e in rows;
    }
    assert last in rows;
  }

  /** One entry per distinct activity type, each with its own sum, and the
      entries together add up to the sum of all emissions. */
  lemma {:induction false} BreakdownSpec(rows: seq<Estimate>)
    ensures GroupsOf(rows, Breakdown(rows))
    decreases |rows|
  {
    if rows != [] {
      var init, last := rows[..|rows| - 1], rows[|rows| - 1];
      assert rows == init + [last];
      BreakdownSpec(init);
      GroupsSnoc(init, last, Breakdown(init));
    }
  }

  /** `b` is a grouping of `rows`: distinct keys, exactly the activity types
      present, each type's own sum, and all of it adding up to the column's sum. */
  ghost predicate GroupsOf(rows: seq<Estimate>, b: seq<Entry>)
  {
    && DistinctKeys(b)
    && (forall t :: t in Keys(b) <==> t in ActivityTypes(rows))
    && (forall t :: TotalFor(b, t) == SumOfType(rows, t))
    && GrandTotal(b) == Sum(Emissions(rows))
  }

  /** Adding one more row to a grouping gives a grouping of the longer column. */
  lemma GroupsSnoc(init: seq<Estimate>, last: Estimate, b0: seq<Entry>)
    requires GroupsOf(init, b0)
    ensures GroupsOf(init + [last], AddTo(b0, last.activityType, last.co2e))
  {
    AddToSpec(b0, last.activityType, last.co2e);
    ActivityTypesSnoc(init, last);
    ColumnSnoc(init, last);
  }

  /** One more row adds its emission to the column's sum and to its type's sum. */
  lemma ColumnSnoc(init: seq<Estimate>, last: Estimate)
    ensures Sum(Emissions(init + [last])) == Sum(Emissions(init)) + last.co2e
    ensures forall t :: SumOfType(init + [last], t) == SumOfType(init, t) + (if last.activityType == t then last.co2e else 0.0)
  {
    var rows := init + [last];
    assert rows[..|rows| - 1] == init;
    assert Emissions(rows)[..|rows| - 1] == Emissions(init);
  }

  /** Adding a row opens at most one new group. */
  lemma {:induction false} AddToLength(b: seq<Entry>, t: string, x: real)
    ensures |b| <= |AddTo(b, t, x)| <= |b| + 1
    decreases |b|
  {
    if b != [] && b[|b| - 1].activityType != t {
      AddToLength(b[..|b| - 1], t, x);
    }
  }

  /** There are never more groups than rows, and no group exactly when there
      is no row. */
  lemma {:induction false} BreakdownSize(rows: seq<Estimate>)
    ensures |Breakdown(rows)| <= |rows|
    ensures Breakdown(rows) == [] <==> rows == []
    decreases |rows|
  {
    if rows != [] {
      var init, last := rows[..|rows| - 1], rows[|rows| - 1];
      BreakdownSize(init);
      AddToLength(Breakdown(init), last.activityType, last.co2e);
      if Breakdown(init) == [] {
        assert Breakdown(rows) == [Entry(last.activityType, last.co2e)];
      }
    }
  }

  /** `getEmissionStats`: the statistics row with the breakdown attached. */
  datatype StatsResponse = StatsResponse(stats: Stats, breakdown: seq<Entry>)

  function EmissionStatsResponse(rows: seq<Estimate>, uid: nat): (r: StatsResponse)
    ensures r.stats == EmissionStats(rows, uid)
    ensures r.breakdown == Breakdown(OfUser(rows, uid))
  {
    StatsResponse(EmissionStats(rows, uid), Breakdown(OfUser(rows, uid)))
  }

  /** The breakdown covers exactly the caller's activity types, each with its
      own sum, and its totals add up to the reported total. */
  lemma BreakdownMatchesStats(rows: seq<Estimate>, uid: nat)
    ensures var r := EmissionStatsResponse(rows, uid);
      && DistinctKeys(r.breakdown)
      && (forall t :: t in Keys(r.breakdown) <==> t in ActivityTypes(OfUser(rows, uid)))
      && (forall t :: TotalFor(r.breakdown, t) == SumOfType(OfUser(rows, uid), t))
      && (r.stats.count > 0 ==> GrandTotal(r.breakdown) == r.stats.total.value)
      && (r.stats.count == 0 ==> r.breakdown == [])
  {
    var mine := OfUser(rows, uid);
    BreakdownSpec(mine);
  }
}
