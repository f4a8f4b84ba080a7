/** Proleptic Gregorian calendar dates as Python's `datetime.date` accepts them,
    and their `%Y-%m-%d` text. */
module Calendar {

  datatype Date = Date(year: int, month: int, day: int)

  predicate IsLeapYear(y: int) {
    y % 4 == 0 && (y % 100 != 0 || y % 400 == 0)
  }

  function DaysInMonth(y: int, m: int): (n: int)
    requires 1 <= m <= 12
    ensures 28 <= n <= 31
    ensures n == 29 <==> m == 2 && IsLeapYear(y)
    ensures n == 28 <==> m == 2 && !IsLeapYear(y)
    ensures n == 30 <==> m == 4 || m == 6 || m == 9 || m == 11
  {
    if m == 2 then (if IsLeapYear(y) then 29 else 28)
    else if m == 4 || m == 6 || m == 9 || m == 11 then 30
    else 31
  }

  /** What `datetime(year, month, day)` accepts: MINYEAR 1 to MAXYEAR 9999, a month of
      the year and a day that exists in that month. */
  predicate IsValidDate(y: int, m: int, d: int)
    ensures IsValidDate(y, m, d) && m == 2 && d == 29 ==> IsLeapYear(y)
    ensures 1 <= y <= 9999 && 1 <= m <= 12 && 1 <= d <= 28 ==> IsValidDate(y, m, d)
    ensures IsValidDate(y, m, d) ==> d <= 31
  {
    1 <= y <= 9999 && 1 <= m <= 12 && 1 <= d <= DaysInMonth(y, m)
  }

  type CalendarDate = d: Date | IsValidDate(d.year, d.month, d.day) witness Date(1900, 1, 1)

  function DigitChar(n: nat): char
    requires n < 10
  {
    ('0' as int + n) as char
  }

  /** Two decimal digits with a leading zero, as `%m` and `%d` print. */
  function Pad2(n: nat): string
    requires n < 100
  {
    [DigitChar(n / 10), DigitChar(n % 10)]
  }

  /** Four decimal digits with leading zeros. */
  function Pad4(n: nat): string
    requires n < 10000
  {
    Pad2(n / 100) + Pad2(n % 100)
  }

  /** The decimal digits of `n` without leading zeros. */
  function Decimal(n: nat): (r: string)
    ensures |r| >= 1
  {
    if n < 10 then [DigitChar(n)] else Decimal(n / 10) + [DigitChar(n % 10)]
  }

  /** `strftime("%Y-%m-%d")`: the C library prints the year without padding, month and
      day with two digits. */
  function FormatIso(d: CalendarDate): (s: string)
    ensures d.year >= 1000 ==> |s| == 10 && s[4] == '-' && s[7] == '-'
  {
    DecimalWidth(d.year);
    Decimal(d.year) + "-" + Pad2(d.month) + "-" + Pad2(d.day)
  }

  lemma DecimalWidth(n: nat)
    ensures 1000 <= n < 10000 ==> |Decimal(n)| == 4
  {
    if 1000 <= n < 10000 {
      DecimalOfFourDigitYear(n);
    }
  }

  /** A year of four digits prints as exactly those digits. */
  lemma DecimalOfFourDigitYear(n: nat)
    requires 1000 <= n < 10000
    ensures Decimal(n) == Pad4(n)
  {
    FourDigitSplit(n);
    DecimalStep(n);
    DecimalStep(n / 10);
    DecimalOfTwoDigits(n / 100);
    var hi, lo := Pad2(n / 100), Pad2(n % 100);
    assert lo == [DigitChar((n % 100) / 10)] + [DigitChar(n % 10)];
    assert Decimal(n) == hi + [DigitChar((n % 100) / 10)] + [DigitChar(n % 10)];
  }

  lemma DecimalStep(n: nat)
    requires n >= 10
    ensures Decimal(n) == Decimal(n / 10) + [DigitChar(n % 10)]
  {
  }

  lemma DecimalOfTwoDigits(m: nat)
    requires 10 <= m < 100
    ensures Decimal(m) == Pad2(m)
  {
    DecimalStep(m);
  }

  lemma FourDigitSplit(n: nat)
    requires 1000 <= n < 10000
    ensures 100 <= n / 10 && 10 <= n / 100 < 100
    ensures (n / 10) / 10 == n / 100
    ensures (n / 10) % 10 == (n % 100) / 10
    ensures (n % 100) % 10 == n % 10
  {
  }
}
