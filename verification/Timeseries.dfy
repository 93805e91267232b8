/** Zero-filling sparse daily rows: src/analytics/application/branch-sales-timeseries.service.ts. */
module Timeseries {
  import opened Common
  import opened Calendar
  import opened Strings

  datatype Row = Row(date: string, grossCents: int, netCents: int, collectedCents: int, debtCents: int, saleCount: nat)

  datatype Point = Point(date: string, grossCents: int, netCents: int, collectedCents: int, debtCents: int, saleCount: nat,
                         averageCents: int)

  datatype Violation = OutsideRange | DuplicateDate

  // ----- Indexing -----

  predicate InRange(s: string, from: string, to: string) {
    !Less(s, from) && Less(s, to)
  }

  ghost predicate Acceptable(rows: seq<Row>, from: string, to: string) {
    && (forall r :: r in rows ==> InRange(r.date, from, to))
    && forall i, j :: 0 <= i < j < |rows| ==> rows[i].date != rows[j].date
  }

  ghost predicate Indexed(byDate: map<string, Row>, rows: seq<Row>) {
    && (forall r :: r in rows ==> r.date in byDate && byDate[r.date] == r)
    && forall date :: date in byDate ==> byDate[date] in rows && byDate[date].date == date
  }

  /** Rows are accepted exactly when their dates are distinct and inside the range. */
  method IndexRows(rows: seq<Row>, from: string, to: string) returns (r: Result<map<string, Row>, Violation>)
    ensures r.Ok? <==> Acceptable(rows, from, to)
    ensures r.Ok? ==> Indexed(r.value, rows)
  {
    var byDate: map<string, Row> := map[];
    for n := 0 to |rows|
      invariant Acceptable(rows[..n], from, to) && Indexed(byDate, rows[..n])
    {
      var row := rows[n];
      if !InRange(row.date, from, to) {
        assert row in rows;
        return Err(OutsideRange);
      }
      if row.date in byDate {
        ghost var k :| 0 <= k < n && rows[k] == byDate[row.date];
        return Err(DuplicateDate);
      }
      byDate := byDate[row.date := row];
      assert rows[..n + 1] == rows[..n] + [row];
    }
    assert rows[..|rows|] == rows;
    return Ok(byDate);
  }

  // ----- Points -----

  function ZeroRow(date: string): Row {
    Row(date, 0, 0, 0, 0, 0)
  }

  function RowAt(byDate: map<string, Row>, date: string): Row {
    if date in byDate then byDate[date] else ZeroRow(date)
  }

  function AverageCents(r: Row): int {
    if r.saleCount == 0 then 0 else RoundDiv(r.netCents, r.saleCount)
  }

  function PointOf(r: Row, date: string): Point {
    Point(date, r.grossCents, r.netCents, r.collectedCents, r.debtCents, r.saleCount, AverageCents(r))
  }

  /** The rounded average is within half a cent of the exact one. */
  lemma AverageWithinHalfCent(r: Row)
    requires r.saleCount > 0
    ensures -(r.saleCount as int) <= 2 * (AverageCents(r) * r.saleCount) - 2 * r.netCents <= r.saleCount
  {
    var d: Positive := r.saleCount;
    var average := RoundDiv(r.netCents, d);
    assert 2 * d * average == 2 * (average * d);
  }

  method GetTimeseries(rows: seq<Row>, from: string, to: string) returns (r: Result<seq<Point>, Violation>)
    requires IsDate(from) && IsDate(to)
    ensures r.Ok? <==> Acceptable(rows, from, to)
    ensures r.Ok? ==> ZeroFilled(r.value, rows, from, to)
  {
    var byDate := IndexRows(rows, from, to);
    if byDate.Err? {
      return Err(byDate.error);
    }
    var dates := EnumerateLocalCalendarDates(from, to);
    var points := FillDates(dates, byDate.value, rows);
    return Ok(points);
  }

  method FillDates(dates: seq<string>, byDate: map<string, Row>, ghost rows: seq<Row>) returns (points: seq<Point>)
    requires Indexed(byDate, rows)
    ensures PointDates(points) == dates && Filled(points, rows)
  {
    points := [];
    for n := 0 to |dates|
      invariant |points| == n
      invariant forall i :: 0 <= i < n ==> points[i] == PointOf(RowAt(byDate, dates[i]), dates[i])
    {
      points := points + [PointOf(RowAt(byDate, dates[n]), dates[n])];
    }
  }

  function PointDates(points: seq<Point>): (r: seq<string>)
    ensures |r| == |points| && forall i :: 0 <= i < |r| ==> r[i] == points[i].date
  {
    seq(|points|, i requires 0 <= i < |points| => points[i].date)
  }

  /** A date with a row carries that row, any other carries zeros. */
  ghost predicate Filled(points: seq<Point>, rows: seq<Row>) {
    && (forall i, r :: 0 <= i < |points| && r in rows && r.date == points[i].date ==> points[i] == PointOf(r, r.date))
    && forall i :: 0 <= i < |points| && (forall r :: r in rows ==> r.date != points[i].date) ==>
         points[i] == PointOf(ZeroRow(points[i].date), points[i].date)
  }

  /** One point per calendar date of the range, in order. */
  ghost predicate ZeroFilled(points: seq<Point>, rows: seq<Row>, from: string, to: string)
    requires IsDate(from) && IsDate(to)
  {
    && Consecutive(PointDates(points), OrdinalOf(from))
    && |points| == (if OrdinalOf(from) < OrdinalOf(to) then OrdinalOf(to) - OrdinalOf(from) else 0)
    && Filled(points, rows)
  }

  // ----- Conservation -----

  datatype Metric = Gross | Net | CollectedMoney | Debt | Count

  function RowMetric(m: Metric, r: Row): int {
    match m
    case Gross => r.grossCents
    case Net => r.netCents
    case CollectedMoney => r.collectedCents
    case Debt => r.debtCents
    case Count => r.saleCount
  }

  function PointMetric(m: Metric, p: Point): int {
    match m
    case Gross => p.grossCents
    case Net => p.netCents
    case CollectedMoney => p.collectedCents
    case Debt => p.debtCents
    case Count => p.saleCount
  }

  function PointValues(m: Metric, points: seq<Point>): (r: seq<int>)
    ensures |r| == |points| && forall i :: 0 <= i < |r| ==> r[i] == PointMetric(m, points[i])
  {
    seq(|points|, i requires 0 <= i < |points| => PointMetric(m, points[i]))
  }

  /** The rows' values, counting only rows dated on a calendar date. */
  function CalendarValues(m: Metric, rows: seq<Row>): (r: seq<int>)
    ensures |r| == |rows| && forall i :: 0 <= i < |r| ==> r[i] == if IsDate(rows[i].date) then RowMetric(m, rows[i]) else 0
  {
    seq(|rows|, i requires 0 <= i < |rows| => if IsDate(rows[i].date) then RowMetric(m, rows[i]) else 0)
  }

  /** The value of the row dated `date`, or zero. */
  function ValueOn(m: Metric, rows: seq<Row>, date: string): int {
    if rows == [] then 0
    else if rows[|rows| - 1].date == date then RowMetric(m, rows[|rows| - 1])
    else ValueOn(m, rows[..|rows| - 1], date)
  }

  function ValuesOn(m: Metric, rows: seq<Row>, dates: seq<string>): (r: seq<int>)
    ensures |r| == |dates| && forall i :: 0 <= i < |r| ==> r[i] == ValueOn(m, rows, dates[i])
  {
    seq(|dates|, i requires 0 <= i < |dates| => ValueOn(m, rows, dates[i]))
  }

  lemma {:induction false} AbsentValue(m: Metric, rows: seq<Row>, date: string)
    requires forall r :: r in rows ==> r.date != date
    ensures ValueOn(m, rows, date) == 0
  {
    if rows != [] {
      assert rows[|rows| - 1] in rows;
      AbsentValue(m, rows[..|rows| - 1], date);
    }
  }

  lemma {:induction false} PresentValue(m: Metric, rows: seq<Row>, r: Row)
    requires r in rows && forall i, j :: 0 <= i < j < |rows| ==> rows[i].date != rows[j].date
    ensures ValueOn(m, rows, r.date) == RowMetric(m, r)
  {
    var n := |rows| - 1;
    if rows[n] != r {
      var k :| 0 <= k < |rows| && rows[k] == r;
      assert rows[..n][k] == r;
      PresentValue(m, rows[..n], r);
    }
  }

  lemma {:induction false} RowsSpread(m: Metric, rows: seq<Row>, dates: seq<string>)
    requires forall i, j :: 0 <= i < j < |rows| ==> rows[i].date != rows[j].date
    requires forall i, j :: 0 <= i < j < |dates| ==> dates[i] != dates[j]
    requires forall r :: r in rows && IsDate(r.date) ==> r.date in dates
    requires forall s :: s in dates ==> IsDate(s)
    ensures Sum(ValuesOn(m, rows, dates)) == Sum(CalendarValues(m, rows))
  {
    if rows == [] {
      SumZero(ValuesOn(m, rows, dates));
    } else {
      var n := |rows| - 1;
      var row := rows[n];
      RowsSpread(m, rows[..n], dates);
      assert CalendarValues(m, rows)[..n] == CalendarValues(m, rows[..n]);
      LastRowSpread(m, rows[..n], row, dates);
      assert rows == rows[..n] + [row];
    }
  }

  lemma LastRowSpread(m: Metric, rows: seq<Row>, row: Row, dates: seq<string>)
    requires forall r :: r in rows ==> r.date != row.date
    requires forall i, j :: 0 <= i < j < |dates| ==> dates[i] != dates[j]
    requires IsDate(row.date) <==> row.date in dates
    ensures Sum(ValuesOn(m, rows + [row], dates)) ==
            Sum(ValuesOn(m, rows, dates)) + if IsDate(row.date) then RowMetric(m, row) else 0
  {
    var before, after := ValuesOn(m, rows, dates), ValuesOn(m, rows + [row], dates);
    assert (rows + [row])[..|rows|] == rows;
    if row.date in dates {
      var k :| 0 <= k < |dates| && dates[k] == row.date;
      AbsentValue(m, rows, row.date);
      assert after == before[k := RowMetric(m, row)];
      SumUpdate(before, k, RowMetric(m, row));
    } else {
      assert after == before;
    }
  }

  /** Zero-filling conserves every metric: the points sum to the rows dated on calendar dates, whatever the row order. */
  lemma TotalsConserved(m: Metric, points: seq<Point>, rows: seq<Row>, from: string, to: string)
    requires IsDate(from) && IsDate(to) && Acceptable(rows, from, to) && ZeroFilled(points, rows, from, to)
    ensures Sum(PointValues(m, points)) == Sum(CalendarValues(m, rows))
  {
    var dates := PointDates(points);
    EnumerationIsExact(dates, from, to);
    forall i, j | 0 <= i < j < |dates|
      ensures dates[i] != dates[j]
    {
      assert OrdinalOf(dates[i]) != OrdinalOf(dates[j]);
    }
    forall i | 0 <= i < |points|
      ensures PointMetric(m, points[i]) == ValueOn(m, rows, dates[i])
    {
      if r :| r in rows && r.date == dates[i] {
        PresentValue(m, rows, r);
      } else {
        AbsentValue(m, rows, dates[i]);
      }
    }
    assert PointValues(m, points) == ValuesOn(m, rows, dates);
    RowsSpread(m, rows, dates);
  }

  const IMPOSSIBLE := Row("2024-02-30", 100, 100, 100, 0, 1)

  lemma ImpossibleIsNoDate()
    ensures !IsDate(IMPOSSIBLE.date)
  {
    var s := IMPOSSIBLE.date;
    assert s[5] == '0' && s[6] == '2' && s[8] == '3' && s[9] == '0';
    assert s[5..7] == [DIGITS[0], DIGITS[2]] && [DIGITS[0], DIGITS[2]] == Pad2(2);
    assert s[8..] == [DIGITS[3], DIGITS[0]] && [DIGITS[3], DIGITS[0]] == Pad2(30);
    Pad2RoundTrip(2);
    Pad2RoundTrip(30);
  }

  /** What the service leaves to its repository: the range check compares strings only, so a row dated 2024-02-30 would be
  accepted with its money on no point. The one repository there is formats database dates and returns no such row. */
  lemma ImpossibleDateIsLost(points: seq<Point>, from: string, to: string)
    requires IsDate(from) && IsDate(to) && InRange(IMPOSSIBLE.date, from, to)
    requires ZeroFilled(points, [IMPOSSIBLE], from, to)
    ensures Acceptable([IMPOSSIBLE], from, to)
    ensures Sum(PointValues(Net, points)) == 0 && IMPOSSIBLE.netCents == 100
  {
    ImpossibleIsNoDate();
    TotalsConserved(Net, points, [IMPOSSIBLE], from, to);
    SumZero(CalendarValues(Net, [IMPOSSIBLE]));
  }
}
