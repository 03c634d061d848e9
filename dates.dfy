/**
 * Calendar dates as the gallery script sees them through the JavaScript `Date`
 * object: a (year, zero-based month, day) triple, its `YYYY-MM-DD` text form
 * (`formatDate`), the strict parse of that form, and an order on dates and
 * on instants within a day.
 *
 * A JavaScript `Date` is either a valid date or "Invalid Date"; the model
 * writes that as `JsDate = Option<CivilDate>`, with `None` for Invalid Date.
 */
module Dates {
  import opened Wrappers

  /** What `getFullYear()`, `getMonth()` and `getDate()` return for one date. */
  datatype CivilDate = CivilDate(year: int, month0: int, day: int) {
    /** The ranges a `Date` object's getters always stay in. */
    predicate Valid() {
      0 <= month0 < 12 && 1 <= day <= 31
    }
  }

  /** A `Date` value: a calendar date, or `None` for Invalid Date. */
  type JsDate = Option<CivilDate>

  const SecondsPerDay: int := 86400

  // ---------------------------------------------------------------------------
  // Decimal digits

  predicate IsDigit(ch: char) {
    '0' <= ch <= '9'
  }

  function DigitChar(d: int): (ch: char)
    requires 0 <= d < 10
    ensures IsDigit(ch) && DigitValue(ch) == d
  {
    ('0' as int + d) as char
  }

  function DigitValue(ch: char): int {
    ch as int - '0' as int
  }

  /** `String(n)` for a non-negative integer: its decimal digits, no leading zero. */
  function NatToDecimal(n: nat): string
    decreases n
  {
    if n < 10 then [DigitChar(n)] else NatToDecimal(n / 10) + [DigitChar(n % 10)]
  }

  /** `String(n)` for any integer: a minus sign in front of a negative one. */
  function IntToDecimal(n: int): string {
    if n < 0 then "-" + NatToDecimal(-n) else NatToDecimal(n)
  }

  function Pow10(k: nat): (p: nat)
    ensures p >= 1
  {
    if k == 0 then 1 else 10 * Pow10(k - 1)
  }

  /** A number below 10^k has at most k digits. */
  lemma {:induction false} ShortDecimal(n: nat, k: nat)
    requires 1 <= k && n < Pow10(k)
    ensures |NatToDecimal(n)| <= k
    decreases k
  {
    assert Pow10(1) == 10;
    if n >= 10 {
      ShortDecimal(n / 10, k - 1);
    }
  }

  /** A number of at least 10^k has more than k digits. */
  lemma {:induction false} LongDecimal(n: nat, k: nat)
    requires n >= Pow10(k)
    ensures |NatToDecimal(n)| >= k + 1
    decreases k
  {
    if k > 0 {
      LongDecimal(n / 10, k - 1);
    }
  }

  /**
   * The four digits `String(n)` writes for 1000 <= n <= 9999, taken off one
   * at a time by division by ten, and the value they stand for.
   */
  lemma FourDigits(n: nat)
    requires 1000 <= n <= 9999
    ensures var q1 := n / 10; var q2 := q1 / 10; var q3 := q2 / 10;
      && 1 <= q3 <= 9
      && NatToDecimal(n) == [DigitChar(q3), DigitChar(q2 % 10), DigitChar(q1 % 10), DigitChar(n % 10)]
      && n == 1000 * q3 + 100 * (q2 % 10) + 10 * (q1 % 10) + n % 10
  {
    var q1 := n / 10;
    var q2 := q1 / 10;
    assert NatToDecimal(q2) == [DigitChar(q2 / 10)] + [DigitChar(q2 % 10)];
    assert NatToDecimal(q1) == NatToDecimal(q2) + [DigitChar(q1 % 10)];
  }

  // ---------------------------------------------------------------------------
  // formatDate

  /** `s.padStart(width, fill)`: pads on the left up to `width`, never truncates. */
  function PadStart(s: string, width: nat, fill: char): string {
    if |s| >= width then s else seq(width - |s|, _ => fill) + s
  }

  /** `String(n).padStart(2, '0')`. */
  function TwoDigits(n: nat): string {
    PadStart(NatToDecimal(n), 2, '0')
  }

  /** For 0..99 the padded text is exactly the tens digit and the units digit. */
  lemma TwoDigitsOf(n: nat)
    requires n < 100
    ensures TwoDigits(n) == [DigitChar(n / 10), DigitChar(n % 10)]
  {
    if n < 10 {
      assert seq(1, _ => '0') == ['0'];
    } else {
      assert NatToDecimal(n / 10) == [DigitChar(n / 10)];
    }
  }

  /**
   * `formatDate(d)`: year, month (one-based) and day of month, joined by '-',
   * with month and day padded to two digits. The year is not padded.
   */
  function FormatDate(c: CivilDate): string
    requires c.Valid()
  {
    IntToDecimal(c.year) + "-" + TwoDigits(c.month0 + 1) + "-" + TwoDigits(c.day)
  }

  /** The `-MM-DD` that follows the year: month and day as exactly two digits each. */
  function MonthDayDigits(c: CivilDate): string
    requires c.Valid()
  {
    var m := c.month0 + 1;
    ['-', DigitChar(m / 10), DigitChar(m % 10), '-', DigitChar(c.day / 10), DigitChar(c.day % 10)]
  }

  /**
   * Whatever the year, `formatDate` is the year's `String` form followed by
   * '-', the one-based month as exactly two digits, '-', and the day as
   * exactly two digits.
   */
  lemma FormatDateFields(c: CivilDate)
    requires c.Valid()
    ensures FormatDate(c) == IntToDecimal(c.year) + MonthDayDigits(c)
  {
    TwoDigitsOf(c.month0 + 1);
    TwoDigitsOf(c.day);
  }

  // ---------------------------------------------------------------------------
  // Parsing `YYYY-MM-DD`

  /**
   * The date-only form `YYYY-MM-DD` that `new Date(...)` reads: exactly four
   * year digits, a month 01-12 and a day 01-31. The model treats every other
   * text as Invalid Date, including the shorter standard forms `YYYY` and
   * `YYYY-MM`, which a JavaScript engine accepts.
   */
  function ParseIsoDate(s: string): (r: JsDate)
    ensures r.Some? ==> r.value.Valid() && 0 <= r.value.year <= 9999
    ensures r.Some? ==> |s| == 10 && s[4] == '-' && s[7] == '-' && IsDigit(s[0])
  {
    if |s| == 10 && s[4] == '-' && s[7] == '-'
       && IsDigit(s[0]) && IsDigit(s[1]) && IsDigit(s[2]) && IsDigit(s[3])
       && IsDigit(s[5]) && IsDigit(s[6]) && IsDigit(s[8]) && IsDigit(s[9])
    then
      var y := DigitValue(s[0]) * 1000 + DigitValue(s[1]) * 100 + DigitValue(s[2]) * 10 + DigitValue(s[3]);
      var m := DigitValue(s[5]) * 10 + DigitValue(s[6]);
      var d := DigitValue(s[8]) * 10 + DigitValue(s[9]);
      if 1 <= m <= 12 && 1 <= d <= 31 then Some(CivilDate(y, m - 1, d)) else None
    else None
  }

  /** Reading back ten characters `YYYY-MM-DD` written digit by digit. */
  lemma ParseDigits(s: string, y3: int, y2: int, y1: int, y0: int, m1: int, m0: int, d1: int, d0: int)
    requires 0 <= y3 < 10 && 0 <= y2 < 10 && 0 <= y1 < 10 && 0 <= y0 < 10
    requires 0 <= m1 < 10 && 0 <= m0 < 10 && 0 <= d1 < 10 && 0 <= d0 < 10
    requires 1 <= 10 * m1 + m0 <= 12 && 1 <= 10 * d1 + d0 <= 31
    requires |s| == 10 && s[4] == '-' && s[7] == '-'
    requires s[0] == DigitChar(y3) && s[1] == DigitChar(y2) && s[2] == DigitChar(y1) && s[3] == DigitChar(y0)
    requires s[5] == DigitChar(m1) && s[6] == DigitChar(m0) && s[8] == DigitChar(d1) && s[9] == DigitChar(d0)
    ensures ParseIsoDate(s) == Some(CivilDate(1000 * y3 + 100 * y2 + 10 * y1 + y0, 10 * m1 + m0 - 1, 10 * d1 + d0))
  {
  }

  /** A four-digit year followed by `-MM-DD` reads back as that date. */
  lemma ParseFourDigitYear(c: CivilDate)
    requires c.Valid() && 1000 <= c.year <= 9999
    ensures ParseIsoDate(NatToDecimal(c.year) + MonthDayDigits(c)) == Some(c)
  {
    var y, m, d := c.year, c.month0 + 1, c.day;
    var q1 := y / 10;
    var q2 := q1 / 10;
    FourDigits(y);
    var yt, md := NatToDecimal(y), MonthDayDigits(c);
    var s := yt + md;
    assert s[0] == yt[0] && s[1] == yt[1] && s[2] == yt[2] && s[3] == yt[3];
    assert s[4] == md[0] && s[5] == md[1] && s[6] == md[2];
    assert s[7] == md[3] && s[8] == md[4] && s[9] == md[5];
    ParseDigits(s, q2 / 10, q2 % 10, q1 % 10, y % 10, m / 10, m % 10, d / 10, d % 10);
  }

  /** For four-digit years, parsing what `formatDate` writes gives back the same date. */
  lemma FormatParseRoundTrip(c: CivilDate)
    requires c.Valid() && 1000 <= c.year <= 9999
    ensures ParseIsoDate(FormatDate(c)) == Some(c)
  {
    FormatDateFields(c);
    ParseFourDigitYear(c);
  }

  /** Any other year makes the text `formatDate` writes Invalid Date. */
  lemma FormatParseOtherYears(c: CivilDate)
    requires c.Valid() && !(1000 <= c.year <= 9999)
    ensures ParseIsoDate(FormatDate(c)) == None
  {
    FormatDateFields(c);
    var s := FormatDate(c);
    if c.year < 0 {
      assert s[0] == '-';
    } else if c.year < 1000 {
      assert Pow10(3) == 1000;
      ShortDecimal(c.year, 3);
    } else {
      assert Pow10(4) == 10000;
      LongDecimal(c.year, 4);
    }
  }

  // ---------------------------------------------------------------------------
  // Order

  /** A key that orders valid dates chronologically (not a count of days). */
  function Ordinal(c: CivilDate): int {
    (c.year * 12 + c.month0) * 32 + c.day
  }

  /** Calendar order: by year, then month, then day. */
  predicate Before(a: CivilDate, b: CivilDate) {
    a.year < b.year
    || (a.year == b.year && a.month0 < b.month0)
    || (a.year == b.year && a.month0 == b.month0 && a.day < b.day)
  }

  lemma OrdinalOrdersDates(a: CivilDate, b: CivilDate)
    requires a.Valid() && b.Valid()
    ensures Ordinal(a) < Ordinal(b) <==> Before(a, b)
    ensures Ordinal(a) == Ordinal(b) <==> a == b
  {
    var ya, yb := a.year * 12 + a.month0, b.year * 12 + b.month0;
    assert Ordinal(a) == ya * 32 + a.day && Ordinal(b) == yb * 32 + b.day;
    if ya < yb {
      assert ya * 32 + 32 <= yb * 32;
    } else if yb < ya {
      assert yb * 32 + 32 <= ya * 32;
    }
    if a.year < b.year {
      assert a.year * 12 + 12 <= b.year * 12;
    } else if b.year < a.year {
      assert b.year * 12 + 12 <= a.year * 12;
    }
  }

  /**
   * The time value of `date` at `secs` seconds after midnight, as an order key:
   * `new Date(text + 'T12:00:00')` is `Instant(date, 43200)`.
   */
  function Instant(c: CivilDate, secs: int): int {
    Ordinal(c) * SecondsPerDay + secs
  }

  /** Comparisons of two time values; any comparison with Invalid Date is false. */
  predicate AtOrAfter(a: Option<int>, b: Option<int>) {
    a.Some? && b.Some? && a.value >= b.value
  }

  function At(d: JsDate, secs: int): Option<int> {
    if d.Some? then Some(Instant(d.value, secs)) else None
  }

  /** Within one day, instants keep the order of their dates. */
  lemma InstantOrder(a: CivilDate, sa: int, b: CivilDate, sb: int)
    requires 0 <= sa < SecondsPerDay && 0 <= sb < SecondsPerDay
    ensures Instant(a, sa) <= Instant(b, sb) <==> Ordinal(a) < Ordinal(b) || (Ordinal(a) == Ordinal(b) && sa <= sb)
  {
    var oa, ob := Ordinal(a), Ordinal(b);
    if oa < ob {
      assert oa * SecondsPerDay + SecondsPerDay <= ob * SecondsPerDay;
    } else if ob < oa {
      assert ob * SecondsPerDay + SecondsPerDay <= oa * SecondsPerDay;
    }
  }
}
