/** The rolling window of `YYYY-MM` month tokens that a refresh queries. */
module Months {
  import opened Wrappers

  /** How many months after the current one the window reaches. */
  const WindowWidth: nat := 6

  predicate IsDigit(c: char) { '0' <= c <= '9' }

  predicate IsDigits(s: string) { forall i :: 0 <= i < |s| ==> IsDigit(s[i]) }

  function DigitChar(d: nat): (c: char)
    requires d < 10
    ensures IsDigit(c)
  {
    ('0' as int + d) as char
  }

  function DigitValue(c: char): nat
  {
    if IsDigit(c) then c as int - '0' as int else 0
  }

  /** `String(n)` for a non-negative integer: its decimal digits, unpadded. */
  function Decimal(n: nat): string
  {
    if n < 10 then [DigitChar(n)] else Decimal(n / 10) + [DigitChar(n % 10)]
  }

  lemma {:induction false} DecimalDigits(n: nat)
    ensures 1 <= |Decimal(n)| && IsDigits(Decimal(n))
  {
    if n >= 10 {
      DecimalDigits(n / 10);
    }
  }

  /** The value of a string of decimal digits, the inverse of `Decimal`. */
  function ParseDecimal(s: string): nat
  {
    if s == [] then 0 else ParseDecimal(s[..|s| - 1]) * 10 + DigitValue(s[|s| - 1])
  }

  lemma {:induction false} DecimalRoundTrip(n: nat)
    ensures ParseDecimal(Decimal(n)) == n
  {
    var s := Decimal(n);
    if n >= 10 {
      assert s[..|s| - 1] == Decimal(n / 10);
      DecimalRoundTrip(n / 10);
    }
  }

  /** `s.padStart(2, '0')`. */
  function PadStart2(s: string): string
  {
    if |s| < 2 then seq(2 - |s|, _ => '0') + s else s
  }

  /** Padding puts zeros in front up to length two and keeps `s` at the end. */
  lemma PadStart2Shape(s: string)
    ensures var r := PadStart2(s);
      && |r| == (if |s| < 2 then 2 else |s|)
      && r[|r| - |s|..] == s
      && forall i :: 0 <= i < |r| - |s| ==> r[i] == '0'
  {
  }

  /** A calendar month counted from January of year 0: its year, and its
      month from 1 to 12 (`getMonth() + 1`). */
  function YearOf(index: nat): nat { index / 12 }

  function MonthOf(index: nat): (m: nat)
    ensures 1 <= m <= 12
  {
    index % 12 + 1
  }

  /** `${d.getFullYear()}-${String(d.getMonth() + 1).padStart(2, '0')}`. */
  function MonthToken(index: nat): string
  {
    Decimal(YearOf(index)) + "-" + PadStart2(Decimal(MonthOf(index)))
  }

  /** Reads a token back into (year, month): the digits before the `-` that
      stands third from the end, and the two digits after it. */
  function ParseMonthToken(t: string): Option<(nat, nat)>
  {
    if |t| >= 4 && t[|t| - 3] == '-' && IsDigits(t[..|t| - 3]) && IsDigits(t[|t| - 2..]) then
      Some((ParseDecimal(t[..|t| - 3]), ParseDecimal(t[|t| - 2..])))
    else None
  }

  lemma {:induction false} MonthDigits(m: nat)
    requires 1 <= m <= 12
    ensures |PadStart2(Decimal(m))| == 2
    ensures IsDigits(PadStart2(Decimal(m)))
    ensures ParseDecimal(PadStart2(Decimal(m))) == m
  {
    var p := PadStart2(Decimal(m));
    if m < 10 {
      assert p == ['0', DigitChar(m)];
      assert p[..1] == ['0'];
      assert ParseDecimal(p[..1]) == 0 by { assert p[..1][..0] == []; }
    } else {
      assert Decimal(m) == Decimal(1) + [DigitChar(m % 10)];
      assert p == [DigitChar(1), DigitChar(m % 10)];
      assert p[..1] == [DigitChar(1)];
      assert ParseDecimal(p[..1]) == 1 by { assert p[..1][..0] == []; }
    }
  }

  /** A `-` between a run of digits and two digits is read back into the two
      numbers. */
  lemma ParseWrittenToken(y: string, p: string)
    requires 1 <= |y| && IsDigits(y) && |p| == 2 && IsDigits(p)
    ensures ParseMonthToken(y + "-" + p) == Some((ParseDecimal(y), ParseDecimal(p)))
  {
    var t := y + "-" + p;
    assert t[..|t| - 3] == y;
    assert t[|t| - 2..] == p;
  }

  /** A month token determines its month: reading it back gives the year and
      the month it was made from. */
  lemma {:induction false} MonthTokenRoundTrip(index: nat)
    ensures ParseMonthToken(MonthToken(index)) == Some((YearOf(index), MonthOf(index)))
  {
    var y, p := Decimal(YearOf(index)), PadStart2(Decimal(MonthOf(index)));
    MonthDigits(MonthOf(index));
    DecimalDigits(YearOf(index));
    ParseWrittenToken(y, p);
    DecimalRoundTrip(YearOf(index));
  }

  lemma {:induction false} MonthTokensDistinct(i: nat, j: nat)
    requires i != j
    ensures MonthToken(i) != MonthToken(j)
  {
    MonthTokenRoundTrip(i);
    MonthTokenRoundTrip(j);
    assert i == YearOf(i) * 12 + MonthOf(i) - 1;
    assert j == YearOf(j) * 12 + MonthOf(j) - 1;
  }

  /** For a four-digit year, a token is `YYYY-MM`: seven characters, a `-` at
      position 4, and a zero-padded month from `01` to `12`. */
  lemma {:induction false} MonthTokenFormat(index: nat)
    requires 1000 <= YearOf(index) <= 9999
    ensures var t := MonthToken(index);
      && |t| == 7 && t[4] == '-'
      && IsDigits(t[..4]) && t[..4] == Decimal(YearOf(index))
      && IsDigits(t[5..]) && 1 <= ParseDecimal(t[5..]) <= 12
  {
    var n := YearOf(index);
    assert |Decimal(n)| == 4 by {
      var a := n / 10;
      var b := a / 10;
      var c := b / 10;
      assert 100 <= a <= 999 && 10 <= b <= 99 && 1 <= c <= 9;
      assert |Decimal(c)| == 1;
      assert |Decimal(b)| == 2;
      assert |Decimal(a)| == 3;
    }
    var t := MonthToken(index);
    DecimalDigits(n);
    MonthDigits(MonthOf(index));
    assert t[5..] == PadStart2(Decimal(MonthOf(index)));
    assert t[..4] == Decimal(n);
  }

  /** The token after a month's token is that of the next calendar month:
      the following month of the same year, or January of the next year. */
  lemma {:induction false} NextMonth(index: nat)
    ensures MonthOf(index) < 12 ==>
      YearOf(index + 1) == YearOf(index) && MonthOf(index + 1) == MonthOf(index) + 1
    ensures MonthOf(index) == 12 ==>
      YearOf(index + 1) == YearOf(index) + 1 && MonthOf(index + 1) == 1
  {
  }

  /** The tokens of the `count` months from month `start` on. */
  function Tokens(start: nat, count: nat): (ts: seq<string>)
    ensures |ts| == count
  {
    if count == 0 then [] else Tokens(start, count - 1) + [MonthToken(start + count - 1)]
  }

  /** A list holding the tokens of the months from `start` on is `Tokens`. */
  lemma {:induction false} TokensOf(months: seq<string>, start: nat)
    requires forall i :: 0 <= i < |months| ==> months[i] == MonthToken(start + i)
    ensures months == Tokens(start, |months|)
  {
    TokensAre(start, |months|);
  }

  lemma {:induction false} TokensAre(start: nat, count: nat)
    ensures forall k :: 0 <= k < count ==> Tokens(start, count)[k] == MonthToken(start + k)
  {
    if count > 0 {
      TokensAre(start, count - 1);
    }
  }

  /** Gregorian leap years, as `Date` counts them. */
  predicate LeapYear(year: nat)
  {
    year % 4 == 0 && (year % 100 != 0 || year % 400 == 0)
  }

  /** The number of days of a month. */
  function DaysInMonth(index: nat): (n: nat)
    ensures 28 <= n <= 31
  {
    var m := MonthOf(index);
    if m == 2 then (if LeapYear(YearOf(index)) then 29 else 28)
    else if m == 4 || m == 6 || m == 9 || m == 11 then 30
    else 31
  }

  /** A calendar day: the month (counted as above) and the day of the month.
      The time of day is not kept. */
  datatype Day = Day(month: nat, day: nat)

  predicate ValidDay(d: Day)
  {
    1 <= d.day <= DaysInMonth(d.month)
  }

  /** `d.setMonth(d.getMonth() + k)`: the day of the month is kept, and a day
      the target month does not have rolls over into the month after it. */
  function AddMonths(d: Day, k: nat): (r: Day)
    requires ValidDay(d)
    ensures ValidDay(r)
    ensures d.day <= DaysInMonth(d.month + k) ==> r == Day(d.month + k, d.day)
    ensures d.day > DaysInMonth(d.month + k) ==>
      r.month == d.month + k + 1 && r.day + DaysInMonth(d.month + k) == d.day
  {
    var target := d.month + k;
    if d.day <= DaysInMonth(target) then Day(target, d.day)
    else Day(target + 1, d.day - DaysInMonth(target))
  }

  /** `a <= b` on dates where `a` is a midnight and `b` carries the current
      time of day: on the same day, `a` is not after `b`. */
  predicate NotAfter(a: Day, b: Day)
  {
    a.month < b.month || (a.month == b.month && a.day <= b.day)
  }

  /** The end date of a refresh started on `now`: six months later. */
  function WindowEnd(now: Day): Day
    requires ValidDay(now)
  {
    AddMonths(now, WindowWidth)
  }

  /** The months of a refresh started on `now`: every month whose first day
      is not after the end date. */
  function Window(now: Day): (months: seq<string>)
    requires ValidDay(now)
  {
    Tokens(now.month, WindowEnd(now).month - now.month + 1)
  }

  /** The window holds seven months, the current one and the next six, unless
      today's day of the month does not exist six months ahead: then the end
      date rolls over and the window holds eight. */
  lemma {:induction false} WindowLength(now: Day)
    requires ValidDay(now)
    ensures |Window(now)| == if now.day <= DaysInMonth(now.month + WindowWidth) then 7 else 8
    ensures now.day <= 28 ==> |Window(now)| == 7
  {
    var end := WindowEnd(now);
    if now.day <= DaysInMonth(now.month + WindowWidth) {
      assert end.month == now.month + WindowWidth;
    } else {
      assert end.month == now.month + WindowWidth + 1;
    }
  }

  /** The window holds the current month's token and the following months',
      in calendar order. */
  lemma {:induction false} WindowMonths(now: Day)
    requires ValidDay(now)
    ensures forall k :: 0 <= k < |Window(now)| ==> Window(now)[k] == MonthToken(now.month + k)
  {
    TokensAre(now.month, |Window(now)|);
  }

  /** A refresh on 31 August 2026 ends on 3 March 2027 (there is no 31
      February), so March is in the window: eight months. */
  lemma {:induction false} LateAugustWindow()
    ensures ValidDay(Day(2026 * 12 + 7, 31))
    ensures WindowEnd(Day(2026 * 12 + 7, 31)) == Day(2027 * 12 + 2, 3)
    ensures |Window(Day(2026 * 12 + 7, 31))| == 8
    ensures Window(Day(2026 * 12 + 7, 31))[7] == MonthToken(2027 * 12 + 2)
  {
    var now := Day(2026 * 12 + 7, 31);
    assert DaysInMonth(now.month + WindowWidth) == 28;
    WindowMonths(now);
  }

  /** Advancing the first of a month by one month gives the first of the
      next month: every month has a first. */
  lemma {:induction false} FirstOfNextMonth(d: Day)
    requires d.day == 1
    ensures ValidDay(d) && AddMonths(d, 1) == Day(d.month + 1, 1)
  {
  }

  /** The month list of `refreshAzjaFlightsRoundtrip`: starting at the first
      of the current month, push the month's token and advance one month
      while the date is not past the end date, six months from now. */
  method MonthWindow(now: Day) returns (months: seq<string>)
    requires ValidDay(now)
    ensures months == Window(now)
  {
    var endDate := AddMonths(now, WindowWidth);
    months := MonthsUntil(Day(now.month, 1), endDate);
  }

  /** The loop of the month list: the tokens of the months from `d`, a first
      of a month, up to the month of `endDate`. */
  method MonthsUntil(d: Day, endDate: Day) returns (months: seq<string>)
    requires d.day == 1 && d.month <= endDate.month && 1 <= endDate.day
    ensures months == Tokens(d.month, endDate.month - d.month + 1)
  {
    var start := d.month;
    var d := d;
    months := [];
    while NotAfter(d, endDate)
      invariant start <= d.month <= endDate.month + 1 && d.day == 1
      invariant d.month == start + |months|
      invariant forall i :: 0 <= i < |months| ==> months[i] == MonthToken(start + i)
      decreases endDate.month + 1 - d.month
    {
      months := months + [MonthToken(d.month)];
      FirstOfNextMonth(d);
      d := AddMonths(d, 1);
    }
    TokensOf(months, start);
  }
}
