/** Local calendar dates as padded strings, without any clock: src/analytics/application/branch-sales-timeseries.service.ts. */
module Calendar {
  import opened Common
  import opened Strings

  datatype Date = Date(year: int, month: int, day: int)

  const MONTH_LENGTHS := [31, 28, 31, 30, 31, 30, 31, 31, 30, 31, 30, 31]

  predicate Leap(year: int) {
    year % 4 == 0 && (year % 100 != 0 || year % 400 == 0)
  }

  function DaysInMonth(year: int, month: int): int
    requires 1 <= month <= 12
  {
    if month != 2 then MONTH_LENGTHS[month - 1] else if Leap(year) then 29 else 28
  }

  /** A calendar date the query validation accepts: years 1 to 9999. */
  predicate Valid(d: Date) {
    1 <= d.year <= 9999 && 1 <= d.month <= 12 && 1 <= d.day <= DaysInMonth(d.year, d.month)
  }

  // ----- Day numbers -----

  function DaysBeforeYear(year: int): int {
    365 * (year - 1) + (year - 1) / 4 - (year - 1) / 100 + (year - 1) / 400
  }

  function DaysBeforeMonth(year: int, month: int): int
    requires 1 <= month <= 13
    decreases month
  {
    if month == 1 then 0 else DaysBeforeMonth(year, month - 1) + DaysInMonth(year, month - 1)
  }

  function Ordinal(d: Date): int
    requires 1 <= d.month <= 12
  {
    DaysBeforeYear(d.year) + DaysBeforeMonth(d.year, d.month) + d.day
  }

  function Next(d: Date): Date
    requires 1 <= d.month <= 12
  {
    if d.day + 1 <= DaysInMonth(d.year, d.month) then d.(day := d.day + 1)
    else if d.month + 1 <= 12 then Date(d.year, d.month + 1, 1)
    else Date(d.year + 1, 1, 1)
  }

  lemma QuotientStep(n: nat, k: Positive)
    requires 1 <= n
    ensures n / k - (n - 1) / k == if n % k == 0 then 1 else 0
  {
    var q := n / k;
    assert n == k * q + n % k;
    if n % k == 0 {
      assert k * (q - 1) == k * q - k;
      DivisionUnique(n - 1, k, q - 1);
    } else {
      DivisionUnique(n - 1, k, q);
    }
  }

  lemma MonthsOfYear(year: int)
    ensures DaysBeforeMonth(year, 13) == if Leap(year) then 366 else 365
  {
    assert DaysBeforeMonth(year, 2) == 31;
    assert DaysBeforeMonth(year, 4) == DaysBeforeMonth(year, 3) + 31;
    assert DaysBeforeMonth(year, 7) == DaysBeforeMonth(year, 4) + 91;
    assert DaysBeforeMonth(year, 10) == DaysBeforeMonth(year, 7) + 92;
    assert DaysBeforeMonth(year, 13) == DaysBeforeMonth(year, 10) + 92;
  }

  lemma LeapYears(year: int)
    requires 1 <= year
    ensures DaysBeforeYear(year + 1) == DaysBeforeYear(year) + if Leap(year) then 366 else 365
  {
    QuotientStep(year, 4);
    QuotientStep(year, 100);
    QuotientStep(year, 400);
    LeapRule(year);
  }

  lemma LeapRule(year: int)
    ensures Leap(year) <==> year % 4 == 0 && (year % 100 == 0 ==> year % 400 == 0)
    ensures (year % 400 == 0 ==> year % 100 == 0) && (year % 100 == 0 ==> year % 4 == 0)
  {
  }

  lemma YearLength(year: int)
    requires 1 <= year
    ensures DaysBeforeYear(year + 1) == DaysBeforeYear(year) + DaysBeforeMonth(year, 13)
    ensures DaysBeforeMonth(year, 13) == if Leap(year) then 366 else 365
  {
    MonthsOfYear(year);
    LeapYears(year);
  }

  /** The next date is exactly one day later. */
  lemma NextIsOneDayLater(d: Date)
    requires Valid(d)
    ensures 1 <= Next(d).month <= 12 && Ordinal(Next(d)) == Ordinal(d) + 1
    ensures 1 <= Next(d).day <= DaysInMonth(Next(d).year, Next(d).month)
  {
    if d.day == 31 && d.month == 12 {
      YearLength(d.year);
      assert DaysBeforeMonth(d.year, 13) == DaysBeforeMonth(d.year, 12) + 31;
    }
  }

  predicate Before(d: Date, e: Date) {
    || d.year < e.year
    || (d.year == e.year && (d.month < e.month || (d.month == e.month && d.day < e.day)))
  }

  lemma {:induction false} MonthsAdd(year: int, m: int, n: int)
    requires 1 <= m < n <= 13
    ensures DaysBeforeMonth(year, m) + DaysInMonth(year, m) <= DaysBeforeMonth(year, n)
    decreases n
  {
    if m < n - 1 {
      MonthsAdd(year, m, n - 1);
    }
  }

  lemma WithinYear(d: Date)
    requires Valid(d)
    ensures DaysBeforeYear(d.year) < Ordinal(d) <= DaysBeforeYear(d.year + 1)
    ensures 0 <= DaysBeforeMonth(d.year, d.month)
  {
    YearLength(d.year);
    MonthsAdd(d.year, d.month, 13);
    if 1 < d.month {
      MonthsAdd(d.year, 1, d.month);
    }
  }

  lemma {:induction false} YearsAdd(y: int, z: int)
    requires 1 <= y <= z
    ensures DaysBeforeYear(y) <= DaysBeforeYear(z)
    decreases z
  {
    if y < z {
      YearsAdd(y, z - 1);
      YearLength(z - 1);
    }
  }

  lemma EarlierYear(d: Date, e: Date)
    requires Valid(d) && Valid(e) && d.year < e.year
    ensures Ordinal(d) < Ordinal(e)
  {
    WithinYear(d);
    WithinYear(e);
    YearsAdd(d.year + 1, e.year);
  }

  lemma EarlierMonth(d: Date, e: Date)
    requires Valid(d) && Valid(e) && d.year == e.year && d.month < e.month
    ensures Ordinal(d) < Ordinal(e)
  {
    MonthsAdd(d.year, d.month, e.month);
  }

  lemma EarlierIsSmaller(d: Date, e: Date)
    requires Valid(d) && Valid(e) && Before(d, e)
    ensures Ordinal(d) < Ordinal(e)
  {
    if d.year < e.year {
      EarlierYear(d, e);
    } else if d.month < e.month {
      EarlierMonth(d, e);
    }
  }

  /** Day numbers order dates as the calendar does, and tell them apart. */
  lemma OrdinalOrders(d: Date, e: Date)
    requires Valid(d) && Valid(e)
    ensures Before(d, e) <==> Ordinal(d) < Ordinal(e)
    ensures Ordinal(d) == Ordinal(e) <==> d == e
  {
    if Before(d, e) {
      EarlierIsSmaller(d, e);
    } else if Before(e, d) {
      EarlierIsSmaller(e, d);
    }
  }

  // ----- Padded strings -----

  function PadStart(s: string, width: nat): string
    decreases width - |s|
  {
    if |s| >= width then s else PadStart("0" + s, width)
  }

  function Format(d: Date): string
    requires 0 <= d.year && 0 <= d.month && 0 <= d.day
  {
    PadStart(Decimal(d.year), 4) + "-" + (PadStart(Decimal(d.month), 2) + "-" + PadStart(Decimal(d.day), 2))
  }

  function Pad2(n: nat): string
    requires n < 100
  {
    [DIGITS[n / 10], DIGITS[n % 10]]
  }

  function Pad4(n: nat): string
    requires n < 10000
  {
    [DIGITS[n / 1000], DIGITS[n / 100 % 10], DIGITS[n / 10 % 10], DIGITS[n % 10]]
  }

  lemma PadIsPad2(n: nat)
    requires n < 100
    ensures PadStart(Decimal(n), 2) == Pad2(n)
  {
    if n < 10 {
      assert Decimal(n) == [DIGITS[n]];
      assert PadStart("0" + Decimal(n), 2) == "0" + Decimal(n);
    } else {
      assert Decimal(n) == Decimal(n / 10) + [DIGITS[n % 10]];
    }
  }

  lemma TwoDigits(n: nat)
    requires 10 <= n < 100
    ensures Decimal(n) == [DIGITS[n / 10], DIGITS[n % 10]]
  {
    assert Decimal(n / 10) == [DIGITS[n / 10]];
  }

  lemma ThreeDigits(n: nat)
    requires 100 <= n < 1000
    ensures Decimal(n) == [DIGITS[n / 100], DIGITS[n / 10 % 10], DIGITS[n % 10]]
  {
    TwoDigits(n / 10);
    assert n / 10 / 10 == n / 100;
  }

  lemma FourDigits(n: nat)
    requires 1000 <= n < 10000
    ensures Decimal(n) == Pad4(n)
  {
    ThreeDigits(n / 10);
    assert n / 10 / 10 == n / 100 && n / 10 / 100 == n / 1000;
  }

  lemma PadOnce(s: string)
    requires |s| == 3
    ensures PadStart(s, 4) == "0" + s
  {
    assert PadStart("0" + s, 4) == "0" + s;
  }

  lemma PadTwice(s: string)
    requires |s| == 2
    ensures PadStart(s, 4) == "00" + s
  {
    PadOnce("0" + s);
    assert PadStart(s, 4) == PadStart("0" + s, 4);
    assert "0" + ("0" + s) == "00" + s;
  }

  lemma PadThrice(s: string)
    requires |s| == 1
    ensures PadStart(s, 4) == "000" + s
  {
    PadTwice("0" + s);
    assert PadStart(s, 4) == PadStart("0" + s, 4);
    assert "00" + ("0" + s) == "000" + s;
  }

  lemma SmallPad4(n: nat)
    requires n < 100
    ensures PadStart(Decimal(n), 4) == Pad4(n)
  {
    if n < 10 {
      PadThrice(Decimal(n));
    } else {
      TwoDigits(n);
      PadTwice(Decimal(n));
    }
  }

  lemma HundredsPad4(n: nat)
    requires 100 <= n < 1000
    ensures PadStart(Decimal(n), 4) == Pad4(n)
  {
    ThreeDigits(n);
    PadOnce(Decimal(n));
    ZeroInFront(DIGITS[n / 100], DIGITS[n / 10 % 10], DIGITS[n % 10]);
    SmallQuotients(n);
  }

  lemma ZeroInFront(a: char, b: char, c: char)
    ensures "0" + [a, b, c] == [DIGITS[0], a, b, c]
  {
  }

  lemma SmallQuotients(n: nat)
    requires n < 1000
    ensures n / 1000 == 0 && n / 100 % 10 == n / 100
  {
  }

  lemma PadIsPad4(n: nat)
    requires n < 10000
    ensures PadStart(Decimal(n), 4) == Pad4(n)
  {
    if n < 100 {
      SmallPad4(n);
    } else if n < 1000 {
      HundredsPad4(n);
    } else {
      FourDigits(n);
    }
  }

  /** Ten characters, each part at a fixed place. */
  lemma FormatShape(d: Date)
    requires Valid(d)
    ensures d.day < 100
    ensures Format(d) == Pad4(d.year) + "-" + (Pad2(d.month) + "-" + Pad2(d.day))
  {
    PadIsPad4(d.year);
    PadIsPad2(d.month);
    PadIsPad2(d.day);
  }

  lemma DigitLess(i: nat, j: nat)
    requires i < 10 && j < 10
    ensures DIGITS[i] < DIGITS[j] <==> i < j
    ensures DIGITS[i] == DIGITS[j] <==> i == j
  {
    assert forall k: nat :: k < 10 ==> DIGITS[k] as int == '0' as int + k;
  }

  lemma Pad2Less(m: nat, n: nat)
    requires m < 100 && n < 100
    ensures Less(Pad2(m), Pad2(n)) <==> m < n
    ensures Pad2(m) == Pad2(n) <==> m == n
  {
    DigitLess(m / 10, n / 10);
    DigitLess(m % 10, n % 10);
    LessPair(DIGITS[m / 10], DIGITS[n / 10], [DIGITS[m % 10]], [DIGITS[n % 10]]);
    LessPair(DIGITS[m % 10], DIGITS[n % 10], "", "");
    assert [DIGITS[m % 10]] + "" == [DIGITS[m % 10]] && [DIGITS[n % 10]] + "" == [DIGITS[n % 10]];
    assert Pad2(m) == [DIGITS[m / 10]] + [DIGITS[m % 10]] && Pad2(n) == [DIGITS[n / 10]] + [DIGITS[n % 10]];
    assert Pad2(m)[0] == DIGITS[m / 10] && Pad2(m)[1] == DIGITS[m % 10];
  }

  lemma Pad4Less(m: nat, n: nat)
    requires m < 10000 && n < 10000
    ensures Less(Pad4(m), Pad4(n)) <==> m < n
    ensures Pad4(m) == Pad4(n) <==> m == n
  {
    Pad4Halves(m);
    Pad4Halves(n);
    Pad2Less(m / 100, n / 100);
    Pad2Less(m % 100, n % 100);
    LessConcat(Pad2(m / 100), Pad2(n / 100), Pad2(m % 100), Pad2(n % 100));
    assert Pad4(m)[..2] == Pad2(m / 100) && Pad4(m)[2..] == Pad2(m % 100);
    assert Pad4(n)[..2] == Pad2(n / 100) && Pad4(n)[2..] == Pad2(n % 100);
  }

  lemma TopPlaces(n: nat)
    requires n < 10000
    ensures n / 100 / 10 == n / 1000 && n / 100 < 100
  {
  }

  lemma TensPlace(n: nat)
    ensures n % 100 / 10 == n / 10 % 10
  {
    var t := n / 100;
    assert n % 100 == n - 100 * t && n / 10 == 10 * t + n % 100 / 10;
  }

  lemma OnesPlace(n: nat)
    ensures n % 100 % 10 == n % 10
  {
  }

  lemma Pad4Halves(n: nat)
    requires n < 10000
    ensures n / 100 < 100 && Pad4(n) == Pad2(n / 100) + Pad2(n % 100)
  {
    TopPlaces(n);
    TensPlace(n);
    OnesPlace(n);
  }

  /** Padded string order is date order, and the string determines the date. */
  lemma StringOrderIsDateOrder(d: Date, e: Date)
    requires Valid(d) && Valid(e)
    ensures Less(Format(d), Format(e)) <==> Before(d, e)
    ensures Format(d) == Format(e) <==> d == e
  {
    FormatShape(d);
    FormatShape(e);
    Pad4Less(d.year, e.year);
    Pad2Less(d.month, e.month);
    Pad2Less(d.day, e.day);
    Dashed(Pad2(d.month), Pad2(e.month), Pad2(d.day), Pad2(e.day));
    Dashed(Pad4(d.year), Pad4(e.year), Pad2(d.month) + "-" + Pad2(d.day), Pad2(e.month) + "-" + Pad2(e.day));
  }

  lemma Dashed(a: string, b: string, x: string, y: string)
    requires |a| == |b|
    ensures Less(a + "-" + x, b + "-" + y) <==> Less(a, b) || (a == b && Less(x, y))
    ensures a + "-" + x == b + "-" + y <==> a == b && x == y
  {
    assert a + "-" + x == a + ("-" + x) && b + "-" + y == b + ("-" + y);
    LessConcat(a, b, "-" + x, "-" + y);
    LessPair('-', '-', x, y);
    if a + "-" + x == b + "-" + y {
      assert a == (a + "-" + x)[..|a|] && b == (b + "-" + y)[..|b|];
      assert x == (a + "-" + x)[|a| + 1..] && y == (b + "-" + y)[|b| + 1..];
    }
  }

  // ----- Parsing and enumerating -----

  function DigitValue(c: char): int {
    c as int - '0' as int
  }

  function Number(s: string): int {
    if s == "" then 0 else 10 * Number(s[..|s| - 1]) + DigitValue(s[|s| - 1])
  }

  /** The three dash-separated numbers of a ten-character date. */
  function Parse(s: string): Date
    requires |s| == 10
  {
    Date(Number(s[..4]), Number(s[5..7]), Number(s[8..]))
  }

  lemma DigitRoundTrip(n: nat)
    requires n < 10
    ensures DigitValue(DIGITS[n]) == n
  {
  }

  lemma Pad2RoundTrip(n: nat)
    requires n < 100
    ensures Number(Pad2(n)) == n
  {
    DigitRoundTrip(n / 10);
    DigitRoundTrip(n % 10);
    var tens := [DIGITS[n / 10]];
    assert tens[..0] == "" && Number(tens) == n / 10;
    assert Pad2(n)[..1] == tens;
  }

  lemma NumberSnoc(s: string, c: char)
    ensures Number(s + [c]) == 10 * Number(s) + DigitValue(c)
  {
    assert (s + [c])[..|s|] == s;
  }

  lemma NumberPair(s: string, m: nat)
    requires m < 100
    ensures Number(s + Pad2(m)) == 100 * Number(s) + m
  {
    NumberSnoc(s, DIGITS[m / 10]);
    NumberSnoc(s + [DIGITS[m / 10]], DIGITS[m % 10]);
    assert s + Pad2(m) == s + [DIGITS[m / 10]] + [DIGITS[m % 10]];
    DigitRoundTrip(m / 10);
    DigitRoundTrip(m % 10);
  }

  lemma Pad4RoundTrip(n: nat)
    requires n < 10000
    ensures Number(Pad4(n)) == n
  {
    Pad4Halves(n);
    Pad2RoundTrip(n / 100);
    NumberPair(Pad2(n / 100), n % 100);
  }

  /** Parsing undoes formatting. */
  lemma ParseRoundTrip(d: Date)
    requires Valid(d)
    ensures |Format(d)| == 10 && Parse(Format(d)) == d
  {
    FormatShape(d);
    Pad4RoundTrip(d.year);
    Pad2RoundTrip(d.month);
    Pad2RoundTrip(d.day);
    var s := Format(d);
    assert s[..4] == Pad4(d.year) && s[5..7] == Pad2(d.month) && s[8..] == Pad2(d.day);
  }

  predicate IsDate(s: string) {
    |s| == 10 && Valid(Parse(s)) && Format(Parse(s)) == s
  }

  function OrdinalOf(s: string): int
    requires IsDate(s)
  {
    Ordinal(Parse(s))
  }

  lemma StringsCompare(a: string, b: string)
    requires IsDate(a) && IsDate(b)
    ensures Less(a, b) <==> OrdinalOf(a) < OrdinalOf(b)
    ensures a == b <==> OrdinalOf(a) == OrdinalOf(b)
  {
    StringOrderIsDateOrder(Parse(a), Parse(b));
    OrdinalOrders(Parse(a), Parse(b));
  }

  /** The dates are the calendar dates of consecutive day numbers, the first one `first`. */
  ghost predicate Consecutive(dates: seq<string>, first: int) {
    forall i :: 0 <= i < |dates| ==> IsDate(dates[i]) && OrdinalOf(dates[i]) == first + i
  }

  lemma NextBefore(d: Date, e: Date)
    requires Valid(d) && Valid(e) && Before(d, e)
    ensures Valid(Next(d)) && (Next(d) == e || Before(Next(d), e))
  {
    NextIsOneDayLater(d);
  }

  lemma StepAhead(current: Date, to: string)
    requires Valid(current) && IsDate(to) && Less(Format(current), to)
    ensures Valid(Next(current)) && IsDate(Format(current)) && IsDate(Format(Next(current)))
    ensures OrdinalOf(Format(current)) < OrdinalOf(to)
    ensures OrdinalOf(Format(Next(current))) == OrdinalOf(Format(current)) + 1
  {
    ParseRoundTrip(current);
    StringsCompare(Format(current), to);
    StringOrderIsDateOrder(current, Parse(to));
    NextIsOneDayLater(current);
    NextBefore(current, Parse(to));
    ParseRoundTrip(Next(current));
  }

  /** The loop's state: the dates so far run from the first day up to the current one, which is not past the end. */
  ghost predicate Reached(dates: seq<string>, first: int, current: int, end: int) {
    Consecutive(dates, first) && current == first + |dates| <= end
  }

  ghost predicate Walking(dates: seq<string>, current: Date, from: string, to: string)
    requires IsDate(from) && IsDate(to)
  {
    Valid(current) && IsDate(Format(current)) && Reached(dates, OrdinalOf(from), OrdinalOf(Format(current)), OrdinalOf(to))
  }

  lemma WalkStarts(from: string, to: string)
    requires IsDate(from) && IsDate(to) && Less(from, to)
    ensures Walking([], Parse(from), from, to)
  {
    StringsCompare(from, to);
  }

  lemma WalkOn(dates: seq<string>, current: Date, from: string, to: string)
    requires IsDate(from) && IsDate(to) && Walking(dates, current, from, to) && Less(Format(current), to)
    ensures Walking(dates + [Format(current)], Next(current), from, to)
    ensures OrdinalOf(Format(current)) < OrdinalOf(Format(Next(current))) <= OrdinalOf(to)
  {
    StepAhead(current, to);
    assert Consecutive(dates + [Format(current)], OrdinalOf(from));
  }

  /** The day after, by carrying day into month and month into year. */
  method Carry(y: int, m: int, d: int) returns (year: int, month: int, day: int)
    requires Valid(Date(y, m, d))
    ensures Date(year, month, day) == Next(Date(y, m, d))
  {
    year, month, day := y, m, d + 1;
    if day > DaysInMonth(year, month) {
      day := 1;
      month := month + 1;
      if month > 12 {
        month := 1;
        year := year + 1;
      }
    }
  }

  /** Every local calendar date in [from, to), ascending, none missing and none twice. */
  method EnumerateLocalCalendarDates(from: string, to: string) returns (dates: seq<string>)
    requires IsDate(from) && IsDate(to)
    ensures Consecutive(dates, OrdinalOf(from))
    ensures |dates| == if OrdinalOf(from) < OrdinalOf(to) then OrdinalOf(to) - OrdinalOf(from) else 0
  {
    dates := [];
    StringsCompare(from, to);
    if !Less(from, to) {
      return;
    }
    var start := Parse(from);
    var year, month, day := start.year, start.month, start.day;
    var date := Format(start);
    ghost var current := start;
    WalkStarts(from, to);
    while Less(date, to)
      invariant current == Date(year, month, day) && Walking(dates, current, from, to)
      invariant date == Format(current)
      decreases OrdinalOf(to) - OrdinalOf(date)
    {
      WalkOn(dates, current, from, to);
      dates := dates + [date];
      year, month, day := Carry(year, month, day);
      current := Next(current);
      date := Format(Date(year, month, day));
    }
    StringsCompare(date, to);
  }

  /** The enumeration is strictly ascending and holds exactly the calendar dates of the range. */
  lemma EnumerationIsExact(dates: seq<string>, from: string, to: string)
    requires IsDate(from) && IsDate(to) && Consecutive(dates, OrdinalOf(from))
    requires |dates| == if OrdinalOf(from) < OrdinalOf(to) then OrdinalOf(to) - OrdinalOf(from) else 0
    ensures forall i, j :: 0 <= i < j < |dates| ==> Less(dates[i], dates[j])
    ensures forall s :: s in dates <==> IsDate(s) && !Less(s, from) && Less(s, to)
  {
    forall i, j | 0 <= i < j < |dates|
      ensures Less(dates[i], dates[j])
    {
      StringsCompare(dates[i], dates[j]);
    }
    forall s | IsDate(s)
      ensures s in dates <==> !Less(s, from) && Less(s, to)
    {
      StringsCompare(s, from);
      StringsCompare(s, to);
      var i := OrdinalOf(s) - OrdinalOf(from);
      if 0 <= i < |dates| {
        StringsCompare(s, dates[i]);
      }
    }
  }
}
