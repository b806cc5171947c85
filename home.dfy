/** The arithmetic of frontend/src/pages/Home.jsx: the animated counter, the
    progress bar toward the 500 kg goal, the tip of the day, the pie-chart
    slices of the per-activity breakdown and the badge.  The interval timer is
    modelled as a sequence of ticks: the counter method records the value shown
    after each tick. */
module Home {
  import opened JsValues
  import opened Wrappers
  import Aggregates
  import EstimateQueries

  /** `Math.ceil(r)`. */
  function Ceil(r: real): (c: int)
    ensures r <= c as real < r + 1.0
  {
    if r == r.Floor as real then r.Floor else r.Floor + 1
  }

  /** The counter's increment, `Math.ceil(co2Saved / 40)`. */
  function Step(x: real): (s: real)
    requires x > 0.0
    ensures s >= 1.0 && 40.0 * s >= x
    ensures s < x / 40.0 + 1.0 && s == s.Floor as real
  {
    Ceil(x / 40.0) as real
  }

  /** Each value is the previous one plus `step`. */
  ghost predicate Rising(s: seq<real>, step: real)
  {
    forall i :: 0 < i < |s| ==> s[i] == s[i - 1] + step
  }

  ghost predicate Below(s: seq<real>, x: real)
  {
    forall i :: 0 <= i < |s| ==> s[i] < x
  }

  /** The values a counter for `x` shows, one per tick: `step`, `2·step`, …
      while below `x`, then exactly `x`. */
  ghost predicate Ramp(shown: seq<real>, x: real, step: real)
  {
    && |shown| >= 1
    && shown[|shown| - 1] == x
    && var p := shown[..|shown| - 1];
      && Rising(p, step) && Below(p, x)
      && (p == [] ==> step >= x)
      && (p != [] ==> p[0] == step && p[|p| - 1] + step >= x)
  }

  /** The counter effect: for a positive `co2Saved` each tick adds the step and
      shows the running value, until it reaches or passes `co2Saved`, which is
      then shown exactly and the interval cleared; otherwise 0 is shown once. */
  method AnimateCounter(co2Saved: Num) returns (shown: seq<real>)
    ensures !Greater(co2Saved, 0.0) ==> shown == [0.0]
    ensures Greater(co2Saved, 0.0) ==> Ramp(shown, co2Saved.r, Step(co2Saved.r))
  {
    if !Greater(co2Saved, 0.0) {
      return [0.0];
    }
    var x := co2Saved.r;
    var step := Step(x);
    var start := 0.0;
    shown := [];
    while true
      invariant 0.0 <= start < x
      invariant shown == [] ==> start == 0.0
      invariant shown != [] ==> shown[0] == step && shown[|shown| - 1] == start
      invariant Rising(shown, step) && Below(shown, x)
      decreases (x - start).Floor
    {
      start := start + step;
      if start >= x {
        assert (shown + [x])[..|shown|] == shown;
        shown := shown + [x];
        break;
      }
      shown := shown + [start];
    }
  }

  /** A running value `n·step` still below `x ≤ 40·step` has taken fewer than 40 ticks. */
  lemma TicksBound(n: nat, step: real, x: real)
    requires step > 0.0 && 40.0 * step >= x && n as real * step < x
    ensures n < 40
  {
  }

  /** Below the goal the `k`-th value shown is `(k+1)·step`. */
  lemma {:induction false} RisingIsMultiple(p: seq<real>, step: real)
    requires Rising(p, step) && (p != [] ==> p[0] == step)
    ensures forall i :: 0 <= i < |p| ==> p[i] == (i + 1) as real * step
    decreases |p|
  {
    if |p| > 1 {
      var init := p[..|p| - 1];
      RisingIsMultiple(init, step);
      assert p[|p| - 1] == init[|p| - 2] + step;
    }
  }

  /** The counter reaches `co2Saved` within 40 ticks. */
  lemma RampLength(shown: seq<real>, x: real)
    requires x > 0.0 && Ramp(shown, x, Step(x))
    ensures |shown| <= 40
  {
    var p := shown[..|shown| - 1];
    if p != [] {
      RisingIsMultiple(p, Step(x));
      TicksBound(|p|, Step(x), x);
    }
  }

  lemma {:induction false} RisingFromStep(p: seq<real>, step: real)
    requires step > 0.0 && Rising(p, step) && (p != [] ==> p[0] == step)
    ensures forall i :: 0 <= i < |p| ==> p[i] >= step
    decreases |p|
  {
    if |p| > 1 {
      var init := p[..|p| - 1];
      RisingFromStep(init, step);
      assert p[|p| - 1] == init[|p| - 2] + step;
    }
  }

  /** Every value shown is positive, never above `co2Saved`, and the values rise strictly. */
  lemma RampBounded(shown: seq<real>, x: real, step: real)
    requires x > 0.0 && step > 0.0 && Ramp(shown, x, step)
    ensures forall i :: 0 <= i < |shown| ==> 0.0 < shown[i] <= x
    ensures forall i :: 0 < i < |shown| ==> shown[i - 1] < shown[i]
  {
    var p := shown[..|shown| - 1];
    RisingFromStep(p, step);
    assert forall i :: 0 <= i < |p| ==> shown[i] == p[i];
  }

  const Goal: real := 500.0

  /** `Math.min((co2Saved / goal) * 100, 100)`; NaN stays NaN. */
  function Progress(co2Saved: Num): (p: Num)
    ensures p.NaN? <==> co2Saved.NaN?
    ensures p.Finite? ==> p.r <= 100.0
    ensures p.Finite? ==> (p.r == 100.0 <==> co2Saved.r >= Goal)
    ensures p.Finite? && co2Saved.r < Goal ==> p.r * Goal == co2Saved.r * 100.0
  {
    match co2Saved
    case NaN => NaN
    case Finite(x) => Finite(if x / Goal * 100.0 < 100.0 then x / Goal * 100.0 else 100.0)
  }

  /** "Goal achieved" is shown when `progress === 100`. */
  predicate GoalAchieved(co2Saved: Num)
  {
    Progress(co2Saved) == Finite(100.0)
  }

  /** The goal message appears exactly when at least 500 kg are saved. */
  lemma GoalAchievedIffGoalReached(co2Saved: Num)
    ensures GoalAchieved(co2Saved) <==> co2Saved.Finite? && co2Saved.r >= Goal
  {
  }

  const EcoTips: seq<string> := [
    "Switch off appliances when not in use to save energy.",
    "Use public transport or cycle to reduce carbon footprint.",
    "Opt for reusable products instead of single-use plastics.",
    "Plant a tree to absorb CO₂ and improve air quality.",
    "Reduce food waste by planning meals efficiently."]

  /** `new Date().getDate() % ecoTips.length`, the day of the month being 1 to 31. */
  function TipIndex(dayOfMonth: int): (i: nat)
    requires 1 <= dayOfMonth <= 31
    ensures i < |EcoTips|
    ensures (i + |EcoTips| - dayOfMonth) % |EcoTips| == 0
  {
    dayOfMonth % |EcoTips|
  }

  /** Within a month the tip rotates daily: consecutive days show different
      tips, and a tip comes back every five days. */
  lemma TipRotates(day: int)
    requires 1 <= day < 31
    ensures TipIndex(day + 1) != TipIndex(day)
    ensures day + 5 <= 31 ==> TipIndex(day + 5) == TipIndex(day)
  {
  }

  /** Across the end of a 31-day month the rotation stalls: the 31st and the
      following 1st show the same tip. */
  lemma MonthWrapRepeats()
    ensures TipIndex(31) == TipIndex(1)
  {
  }

  const Colors: seq<string> := ["#10B981", "#3B82F6", "#F59E42", "#EF4444", "#A78BFA"]

  /** `toUpperCase` of one character, for the ASCII letters. */
  function Upper(c: char): (u: char)
    ensures 'a' <= c <= 'z' ==> u as int == c as int - 32
    ensures !('a' <= c <= 'z') ==> u == c
  {
    if 'a' <= c <= 'z' then (c as int - 32) as char else c
  }

  /** `s.charAt(0).toUpperCase() + s.slice(1)`. */
  function Capitalise(s: string): (t: string)
    ensures |t| == |s|
    ensures s != [] ==> t[0] == Upper(s[0]) && t[1..] == s[1..]
  {
    if s == [] then [] else [Upper(s[0])] + s[1..]
  }

  datatype Slice = Slice(name: string, value: real, color: string)

  /** The pie slices of the breakdown: one per entry, in order, coloured in a
      cycle of five. */
  function PieSlices(entries: seq<EstimateQueries.Entry>): (slices: seq<Slice>)
    ensures |slices| == |entries|
    ensures forall i :: 0 <= i < |entries| ==>
      slices[i] == Slice(Capitalise(entries[i].activityType), entries[i].total, Colors[i % |Colors|])
  {
    seq(|entries|, i requires 0 <= i < |entries| =>
      Slice(Capitalise(entries[i].activityType), entries[i].total, Colors[i % |Colors|]))
  }

  function SliceValues(slices: seq<Slice>): (vs: seq<real>)
    ensures |vs| == |slices| && forall i :: 0 <= i < |slices| ==> vs[i] == slices[i].value
  {
    seq(|slices|, i requires 0 <= i < |slices| => slices[i].value)
  }

  /** The slices together show the breakdown's grand total. */
  lemma {:induction false} PieShowsGrandTotal(entries: seq<EstimateQueries.Entry>)
    ensures Aggregates.Sum(SliceValues(PieSlices(entries))) == EstimateQueries.GrandTotal(entries)
    decreases |entries|
  {
    if entries != [] {
      var init := entries[..|entries| - 1];
      PieShowsGrandTotal(init);
      var vs := SliceValues(PieSlices(entries));
      assert vs[..|vs| - 1] == SliceValues(PieSlices(init));
    }
  }

  /** Consecutive slices in breakdown order never share a colour; the first
      and the last slice, which touch in the pie, share one exactly when
      there is more than one slice and their number is 1 more than a
      multiple of five. */
  lemma NeighboursDiffer(entries: seq<EstimateQueries.Entry>, i: nat)
    requires i + 1 < |entries|
    ensures PieSlices(entries)[i].color != PieSlices(entries)[i + 1].color
    ensures PieSlices(entries)[0].color == PieSlices(entries)[|entries| - 1].color <==> |entries| % 5 == 1
  {
  }

  datatype Badge = OneTon | HundredKg | EveryKg

  /** The badge text's choice: `total > 1000`, else `total > 100`, else the
      generic message (a comparison converts the total to a number; NaN and
      null compare false or as 0). */
  function BadgeFor(total: Value, toNumber: string -> Num): (b: Badge)
    ensures b == OneTon <==> Greater(ToNumber(total, toNumber), 1000.0)
    ensures b == HundredKg <==> Greater(ToNumber(total, toNumber), 100.0) && !Greater(ToNumber(total, toNumber), 1000.0)
    ensures b == EveryKg <==> !Greater(ToNumber(total, toNumber), 100.0)
  {
    if Greater(ToNumber(total, toNumber), 1000.0) then OneTon
    else if Greater(ToNumber(total, toNumber), 100.0) then HundredKg
    else EveryKg
  }

  function Level(b: Badge): nat
  {
    match b
    case EveryKg => 0
    case HundredKg => 1
    case OneTon => 2
  }

  /** A larger total never earns a lesser badge. */
  lemma BadgeMonotone(a: real, b: real, toNumber: string -> Num)
    requires a <= b
    ensures Level(BadgeFor(Number(Finite(a)), toNumber)) <= Level(BadgeFor(Number(Finite(b)), toNumber))
  {
  }

  /** The badge card shows only for stats with a positive count. */
  predicate ShowsBadge(stats: Value, toNumber: string -> Num)
  {
    Truthy(stats) && Greater(ToNumber(Get(stats, "count"), toNumber), 0.0)
  }

  /** A NULL aggregate arrives as `null`, any other as a number. */
  function Nullable(x: Option<real>): (v: Value)
    ensures x.None? <==> v == Null
    ensures x.Some? ==> v == Number(Finite(x.value))
  {
    match x
    case None => Null
    case Some(r) => Number(Finite(r))
  }

  /** The body of the `/api/co2/stats` response the page stores: the single
      statistics row spread into an object, plus the breakdown. */
  function StatsBody(r: EstimateQueries.StatsResponse): (v: Value)
    ensures v.Obj? && v.fields.Keys == {"total_emissions", "avg_emissions", "max_emissions", "min_emissions", "count", "breakdown"}
    ensures Get(v, "count") == Number(Finite(r.stats.count as real))
    ensures Get(v, "total_emissions") == Nullable(r.stats.total)
    ensures Get(v, "min_emissions") == Nullable(r.stats.min)
  {
    Obj(map[
      "total_emissions" := Nullable(r.stats.total),
      "avg_emissions" := Nullable(r.stats.avg),
      "max_emissions" := Nullable(r.stats.max),
      "min_emissions" := Nullable(r.stats.min),
      "count" := Number(Finite(r.stats.count as real)),
      "breakdown" := Arr(seq(|r.breakdown|, i requires 0 <= i < |r.breakdown| =>
        Obj(map["activity_type" := Str(r.breakdown[i].activityType), "total" := Number(Finite(r.breakdown[i].total))])))])
  }

  /** On a stats body the badge condition is a positive count. */
  lemma ShowsBadgeIffCounted(r: EstimateQueries.StatsResponse, toNumber: string -> Num)
    ensures ShowsBadge(StatsBody(r), toNumber) <==> r.stats.count > 0
  {
    assert Get(StatsBody(r), "count") == Number(Finite(r.stats.count as real));
  }

  /** The badge card shows exactly for a user with at least one stored
      estimate, and then its message is chosen from the user's total. */
  lemma BadgeShownIffEstimates(rows: seq<EstimateQueries.Estimate>, uid: nat, toNumber: string -> Num)
    ensures ShowsBadge(StatsBody(EstimateQueries.EmissionStatsResponse(rows, uid)), toNumber)
      <==> exists e :: e in rows && e.userId == uid
    ensures ShowsBadge(StatsBody(EstimateQueries.EmissionStatsResponse(rows, uid)), toNumber) ==>
      var total := Aggregates.Sum(EstimateQueries.Emissions(EstimateQueries.OfUser(rows, uid)));
      BadgeFor(Get(StatsBody(EstimateQueries.EmissionStatsResponse(rows, uid)), "total_emissions"), toNumber)
        == BadgeFor(Number(Finite(total)), toNumber)
  {
    var mine := EstimateQueries.OfUser(rows, uid);
    var r := EstimateQueries.EmissionStatsResponse(rows, uid);
    ShowsBadgeIffCounted(r, toNumber);
    assert r.stats.count == |mine|;
    if mine != [] {
      assert mine[0] in mine;
    }
  }
}
