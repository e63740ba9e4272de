/**
 * `relative(from, to)` of the date prelude: the signed distance between two
 * instants expressed in the coarsest unit whose bound the distance stays under.
 * Instants are integer millisecond timestamps.
 */
module RelativeDate {

  datatype Unit = Milliseconds | Seconds | Minutes | Hours | Days | Weeks | Months | Years

  /** One row of the interval table: a unit and the exclusive bound of distances it covers. */
  datatype Interval = Interval(unit: Unit, bound: nat)

  const Second: nat := 1000
  const Minute: nat := 1000 * 60
  const Hour: nat := 1000 * 60 * 60
  const Day: nat := 1000 * 60 * 60 * 24
  const Week: nat := 1000 * 60 * 60 * 24 * 7
  const Month: nat := 1000 * 60 * 60 * 24 * 30
  const Year: nat := 1000 * 60 * 60 * 24 * 365

  /** The table searched by `relative`, in the order given by the source. */
  const Intervals: seq<Interval> := [
    Interval(Milliseconds, Second),
    Interval(Seconds, Minute),
    Interval(Minutes, Hour),
    Interval(Hours, Day),
    Interval(Days, Week),
    Interval(Weeks, Month),
    Interval(Months, Year)
  ]

  /** The result record: unit, value in that unit (before the two-digit rounding) and raw difference. */
  datatype Relative = Relative(unit: Unit, value: real, diff: int)

  function Abs(x: int): nat { if x < 0 then -x else x }

  /** Index of the first row from `i` on whose bound exceeds `d`, or `|Intervals|` when none does. */
  function Find(d: nat, i: nat): (k: nat)
    requires i <= |Intervals|
    ensures i <= k <= |Intervals|
    ensures k < |Intervals| ==> d < Intervals[k].bound
    ensures forall m :: i <= m < k ==> Intervals[m].bound <= d
    decreases |Intervals| - i
  {
    if i == |Intervals| then i
    else if d < Intervals[i].bound then i
    else Find(d, i + 1)
  }

  /** The divisor used for row `k`: the previous row's bound, 1 for the first row. */
  function Divisor(k: nat): (r: nat)
    requires k <= |Intervals|
    ensures r > 0
  {
    if k == 0 then 1 else Intervals[k - 1].bound
  }

  function RelativeTo(from: int, to: int): Relative {
    var diff := to - from;
    var k := Find(Abs(diff), 0);
    var unit := if k < |Intervals| then Intervals[k].unit else Years;
    Relative(unit, diff as real / Divisor(k) as real, diff)
  }

  /** The bounds strictly increase along the table. */
  lemma BoundsIncrease(i: nat, j: nat)
    requires i < j < |Intervals|
    ensures Intervals[i].bound < Intervals[j].bound
  {
  }

  /** The unit order used to compare results. */
  function Rank(u: Unit): nat {
    match u
    case Milliseconds => 0
    case Seconds => 1
    case Minutes => 2
    case Hours => 3
    case Days => 4
    case Weeks => 5
    case Months => 6
    case Years => 7
  }

  /** Row `k` of the table has unit of rank `k`. */
  lemma RankOfRow(k: nat)
    requires k < |Intervals|
    ensures Rank(Intervals[k].unit) == k
  {
  }

  /** The search passes every row whose bound the distance reaches. */
  lemma {:induction false} FindSkips(d: nat, i: nat, k: nat)
    requires i <= k <= |Intervals|
    requires forall m :: i <= m < k ==> Intervals[m].bound <= d
    ensures Find(d, i) >= k
    decreases k - i
  {
    if i < k { FindSkips(d, i + 1, k); }
  }

  /** The search stops no later than a row whose bound exceeds the distance. */
  lemma {:induction false} FindStops(d: nat, i: nat, k: nat)
    requires i <= k < |Intervals|
    requires d < Intervals[k].bound
    ensures Find(d, i) <= k
    decreases k - i
  {
    if i < k && Intervals[i].bound <= d { FindStops(d, i + 1, k); }
  }

  /** The search ends exactly at the row whose half-open range holds the distance. */
  lemma FindInRange(d: nat, k: nat)
    requires k <= |Intervals|
    ensures Find(d, 0) == k <==>
      (k == 0 || Intervals[k - 1].bound <= d) && (k == |Intervals| || d < Intervals[k].bound)
  {
    if (k == 0 || Intervals[k - 1].bound <= d) && (k == |Intervals| || d < Intervals[k].bound) {
      forall m | 0 <= m < k ensures Intervals[m].bound <= d {
        if m < k - 1 { BoundsIncrease(m, k - 1); }
      }
      FindSkips(d, 0, k);
      if k < |Intervals| { FindStops(d, 0, k); }
    }
  }

  /** `diff` is the plain difference, and the unit is the one whose range holds |diff|. */
  lemma RelativeUnit(from: int, to: int)
    ensures RelativeTo(from, to).diff == to - from
    ensures var d := Abs(to - from); var u := RelativeTo(from, to).unit;
      && (u == Milliseconds <==> d < Second)
      && (u == Seconds <==> Second <= d < Minute)
      && (u == Minutes <==> Minute <= d < Hour)
      && (u == Hours <==> Hour <= d < Day)
      && (u == Days <==> Day <= d < Week)
      && (u == Weeks <==> Week <= d < Month)
      && (u == Months <==> Month <= d < Year)
      && (u == Years <==> Year <= d)
  {
    var d := Abs(to - from);
    var k := Find(d, 0);
    FindInRange(d, k);
    forall m | 0 <= m <= |Intervals| ensures (k == m) <==>
      (m == 0 || Intervals[m - 1].bound <= d) && (m == |Intervals| || d < Intervals[m].bound)
    {
      FindInRange(d, m);
    }
  }

  /** Swapping the instants keeps the unit and negates the difference and the value. */
  lemma {:induction false} RelativeSymmetric(from: int, to: int)
    ensures RelativeTo(to, from).unit == RelativeTo(from, to).unit
    ensures RelativeTo(to, from).diff == -RelativeTo(from, to).diff
    ensures RelativeTo(to, from).value == -RelativeTo(from, to).value
  {
    var d := to - from;
    assert Abs(from - to) == Abs(d);
    var k := Find(Abs(d), 0);
    var q := Divisor(k) as real;
    NegateQuotient(d as real, q);
  }

  lemma NegateQuotient(x: real, q: real)
    requires q > 0.0
    ensures (-x) / q == -(x / q)
  {
  }

  /** A larger distance never gets a finer unit. */
  lemma RelativeMonotone(d1: nat, d2: nat)
    requires d1 <= d2
    ensures Find(d1, 0) <= Find(d2, 0)
  {
    var k2 := Find(d2, 0);
    if k2 < |Intervals| { FindStops(d1, 0, k2); }
  }

  lemma RelativeUnitMonotone(from1: int, to1: int, from2: int, to2: int)
    requires Abs(to1 - from1) <= Abs(to2 - from2)
    ensures Rank(RelativeTo(from1, to1).unit) <= Rank(RelativeTo(from2, to2).unit)
  {
    var k1 := Find(Abs(to1 - from1), 0);
    var k2 := Find(Abs(to2 - from2), 0);
    RelativeMonotone(Abs(to1 - from1), Abs(to2 - from2));
    if k1 < |Intervals| { RankOfRow(k1); }
    if k2 < |Intervals| { RankOfRow(k2); }
  }

  /** The value is the difference divided by the previous row's bound; for milliseconds it is the difference itself. */
  lemma RelativeValue(from: int, to: int)
    ensures var r := RelativeTo(from, to); var d := r.diff as real;
      && (r.unit == Milliseconds ==> r.value == d)
      && (r.unit == Seconds ==> r.value == d / Second as real)
      && (r.unit == Minutes ==> r.value == d / Minute as real)
      && (r.unit == Hours ==> r.value == d / Hour as real)
      && (r.unit == Days ==> r.value == d / Day as real)
      && (r.unit == Weeks ==> r.value == d / Week as real)
      && (r.unit == Months ==> r.value == d / Month as real)
      && (r.unit == Years ==> r.value == d / Year as real)
  {
    var k := Find(Abs(to - from), 0);
    if k < |Intervals| { RankOfRow(k); }
  }
}
