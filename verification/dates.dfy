/**
 * Date parsing as `datetime.strptime(s, '%Y-%m-%d')` performs it, and the
 * check-in/check-out validation of hotel_system/reservation.py.
 *
 * strptime builds a regular expression from the format: `%Y` is four digits,
 * `%m` is `1[0-2]|0[1-9]|[1-9]` and `%d` is `3[01]|[12]\d|0[1-9]|[1-9]| [1-9]`,
 * alternatives tried in that order. The whole string must be consumed, and
 * the fields must name a real calendar day in years 1 to 9999.
 */
module Dates {
  import opened Wrappers
  import opened Json

  datatype Date = Date(year: int, month: int, day: int)

  predicate IsLeapYear(y: int)
  {
    y % 4 == 0 && (y % 100 != 0 || y % 400 == 0)
  }

  function DaysInMonth(y: int, m: int): (n: int)
    requires 1 <= m <= 12
    ensures 28 <= n <= 31
  {
    if m == 2 then (if IsLeapYear(y) then 29 else 28)
    else if m == 4 || m == 6 || m == 9 || m == 11 then 30
    else 31
  }

  /** A day the `datetime` type can represent. */
  predicate IsValid(d: Date)
  {
    1 <= d.year <= 9999 && 1 <= d.month <= 12 && 1 <= d.day <= DaysInMonth(d.year, d.month)
  }

  /** Chronological order of two dates (datetimes at midnight compare this way). */
  predicate Before(a: Date, b: Date)
  {
    a.year < b.year ||
    (a.year == b.year && (a.month < b.month || (a.month == b.month && a.day < b.day)))
  }

  /** The `%m` group at the start of `t`: its value and the characters it takes. */
  function MatchMonth(t: string): (r: Option<(int, nat)>)
    ensures r.Some? ==> 1 <= r.value.0 <= 12 && 1 <= r.value.1 <= 2 && r.value.1 <= |t|
  {
    if |t| >= 2 && t[0] == '1' && '0' <= t[1] <= '2' then Some((10 + DigitValue(t[1]), 2))
    else if |t| >= 2 && t[0] == '0' && '1' <= t[1] <= '9' then Some((DigitValue(t[1]), 2))
    else if |t| >= 1 && '1' <= t[0] <= '9' then Some((DigitValue(t[0]), 1))
    else None
  }

  /** The `%d` group at the start of `t`: its value and the characters it takes. */
  function MatchDay(t: string): (r: Option<(int, nat)>)
    ensures r.Some? ==> 1 <= r.value.0 <= 31 && 1 <= r.value.1 <= 2 && r.value.1 <= |t|
  {
    if |t| >= 2 && t[0] == '3' && '0' <= t[1] <= '1' then Some((30 + DigitValue(t[1]), 2))
    else if |t| >= 2 && '1' <= t[0] <= '2' && IsDigit(t[1]) then
      Some((10 * DigitValue(t[0]) + DigitValue(t[1]), 2))
    else if |t| >= 2 && t[0] == '0' && '1' <= t[1] <= '9' then Some((DigitValue(t[1]), 2))
    else if |t| >= 1 && '1' <= t[0] <= '9' then Some((DigitValue(t[0]), 1))
    else if |t| >= 2 && t[0] == ' ' && '1' <= t[1] <= '9' then Some((DigitValue(t[1]), 2))
    else None
  }

  /** `strptime(s, '%Y-%m-%d')`: None where it raises ValueError. */
  function ParseDate(s: string): (r: Option<Date>)
    ensures r.Some? ==> IsValid(r.value)
  {
    if |s| >= 5 && AllDigits(s[..4]) && s[4] == '-' then
      var year := DigitsValue(s[..4]);
      match MatchMonth(s[5..])
      case None => None
      case Some((month, taken)) =>
        var k := 5 + taken;
        if k < |s| && s[k] == '-' then
          match MatchDay(s[k + 1..])
          case None => None
          case Some((day, taken')) =>
            var date := Date(year, month, day);
            if k + 1 + taken' == |s| && IsValid(date) then Some(date) else None
        else None
    else None
  }

  /** `validate_dates`: both dates parse and check-out falls strictly after check-in. */
  function ValidateDates(checkIn: string, checkOut: string): (r: Option<(Date, Date)>)
    ensures r.Some? <==>
      ParseDate(checkIn).Some? && ParseDate(checkOut).Some? &&
      Before(ParseDate(checkIn).value, ParseDate(checkOut).value)
    ensures r.Some? ==> r.value == (ParseDate(checkIn).value, ParseDate(checkOut).value)
  {
    match (ParseDate(checkIn), ParseDate(checkOut))
    case (Some(dateIn), Some(dateOut)) =>
      if Before(dateIn, dateOut) then Some((dateIn, dateOut)) else None
    case _ => None
  }

  /** A same-day stay is rejected, whatever the string. */
  lemma SameDayRejected(s: string)
    ensures ValidateDates(s, s).None?
  {
  }

  /** Swapping a valid pair of dates always makes it invalid. */
  lemma SwappedRejected(checkIn: string, checkOut: string)
    requires ValidateDates(checkIn, checkOut).Some?
    ensures ValidateDates(checkOut, checkIn).None?
  {
  }

  // ---------------------------------------------------------------------------
  // The zero-padded form `YYYY-MM-DD` always parses back
  // ---------------------------------------------------------------------------

  /** The last `width` decimal digits of `n`, zero-padded. */
  function Padded(n: nat, width: nat): (s: string)
    ensures |s| == width && AllDigits(s)
  {
    if width == 0 then [] else Padded(n / 10, width - 1) + [DigitChar(n % 10)]
  }

  lemma {:induction false} PaddedValue(n: nat, width: nat)
    requires n < Pow10(width)
    ensures DigitsValue(Padded(n, width)) == n
  {
    if width > 0 {
      assert n / 10 < Pow10(width - 1) by {
        assert n < 10 * Pow10(width - 1);
      }
      PaddedValue(n / 10, width - 1);
      var prefix := Padded(n / 10, width - 1);
      var s := prefix + [DigitChar(n % 10)];
      assert s[..|s| - 1] == prefix;
      assert DigitsValue(s) == 10 * DigitsValue(prefix) + n % 10;
    }
  }

  /** The date written `YYYY-MM-DD`, as `strftime('%Y-%m-%d')` writes it. */
  function IsoText(d: Date): (s: string)
    requires IsValid(d)
    ensures |s| == 10
  {
    Padded(d.year, 4) + "-" + Padded(d.month, 2) + "-" + Padded(d.day, 2)
  }

  /** A two-digit field: the tens digit, then the units digit. */
  lemma TwoDigits(n: nat)
    requires n < 100
    ensures Padded(n, 2) == [DigitChar(n / 10), DigitChar(n % 10)]
  {
    assert Padded(n / 10, 1) == [DigitChar(n / 10 % 10)];
    assert n / 10 % 10 == n / 10;
  }

  /** `%m` takes both digits of a zero-padded month. */
  lemma MonthOfPadded(m: int, rest: string)
    requires 1 <= m <= 12
    ensures MatchMonth(Padded(m, 2) + rest) == Some((m, 2))
  {
    TwoDigits(m);
    var t := Padded(m, 2) + rest;
    assert t[0] == DigitChar(m / 10) && t[1] == DigitChar(m % 10);
    if m < 10 {
      assert t[0] == '0';
    } else {
      assert m / 10 == 1 && t[0] == '1';
    }
  }

  /** `%d` takes both digits of a zero-padded day. */
  lemma DayOfPadded(d: int)
    requires 1 <= d <= 31
    ensures MatchDay(Padded(d, 2)) == Some((d, 2))
  {
    TwoDigits(d);
    var t := Padded(d, 2);
    assert t[0] == DigitChar(d / 10) && t[1] == DigitChar(d % 10);
    if d < 10 {
      assert t[0] == '0';
    } else if d < 30 {
      assert 10 * (d / 10) + d % 10 == d;
    } else {
      assert d / 10 == 3 && t[0] == '3';
    }
  }

  /** `strptime` reads back every valid date written in the zero-padded form. */
  lemma ParseIsoText(d: Date)
    requires IsValid(d)
    ensures ParseDate(IsoText(d)) == Some(d)
  {
    var s := IsoText(d);
    var y, m, dd := Padded(d.year, 4), Padded(d.month, 2), Padded(d.day, 2);
    assert s == y + "-" + m + "-" + dd;
    PaddedValue(d.year, 4);
    assert s[..4] == y;
    assert s[5..] == m + ("-" + dd);
    MonthOfPadded(d.month, "-" + dd);
    assert s[8..] == dd;
    DayOfPadded(d.day);
  }
}
