/** Calendar dates as Python's `datetime.date` holds them: validity of a
    (year, month, day) triple, a day count for "older than N days", and
    the `%d.%m.%Y` rendering the events digest uses. */
module Calendar {
  import opened Common

  datatype Date = Date(year: nat, month: nat, day: nat)

  predicate IsLeapYear(y: int) {
    y % 4 == 0 && (y % 100 != 0 || y % 400 == 0)
  }

  function DaysInMonth(y: int, m: int): (n: int)
    requires 1 <= m <= 12
    ensures 28 <= n <= 31
  {
    if m == 2 then (if IsLeapYear(y) then 29 else 28)
    else if m == 4 || m == 6 || m == 9 || m == 11 then 30
    else 31
  }

  /** The triples `datetime.date(y, m, d)` accepts (years 1..9999). */
  predicate ValidDate(y: int, m: int, d: int) {
    1 <= y <= 9999 && 1 <= m <= 12 && 1 <= d <= DaysInMonth(y, m)
  }

  /** Days since 1970-01-01 in the proleptic Gregorian calendar; the
      difference of two of these is what `date - date` yields in days. */
  function DayNumber(d: Date): int {
    var y := if d.month <= 2 then d.year - 1 else d.year;
    var era := y / 400;
    var yoe := y - era * 400;
    var mp := (d.month + 9) % 12;
    var doy := (153 * mp + 2) / 5 + d.day - 1;
    var doe := yoe * 365 + yoe / 4 - yoe / 100 + doy;
    era * 146097 + doe - 719468
  }

  /** `d.strftime('%d.%m.%Y')` */
  function FormatDate(d: Date): string {
    Join([Pad2(d.day), Pad2(d.month), NatToString(d.year)], ".")
  }

  /** Reads a `dd.mm.yyyy` text back into a date. */
  function ParseDate(s: string): Option<Date> {
    var parts := Split(s, '.');
    if |parts| == 3 && AllDigits(parts[0]) && AllDigits(parts[1]) && AllDigits(parts[2]) then
      Some(Date(ParseNat(parts[2]), ParseNat(parts[1]), ParseNat(parts[0])))
    else
      None
  }

  /** The rendered date names the date it was made from: day first, then
      month, then year, each recoverable. */
  lemma FormatDateRoundTrip(d: Date)
    requires ValidDate(d.year, d.month, d.day)
    ensures ParseDate(FormatDate(d)) == Some(d)
  {
    var parts := [Pad2(d.day), Pad2(d.month), NatToString(d.year)];
    Pad2Digits(d.day);
    Pad2Digits(d.month);
    ParseNatToString(d.year);
    forall k | 0 <= k < 3
      ensures '.' !in parts[k]
    {
      assert AllDigits(parts[k]);
    }
    SplitJoin(parts, '.');
  }

  /** A four-digit year gives exactly `dd.mm.yyyy`. */
  lemma FormatDateShape(d: Date)
    requires ValidDate(d.year, d.month, d.day) && 1000 <= d.year
    ensures |FormatDate(d)| == 10
    ensures FormatDate(d)[2] == '.' && FormatDate(d)[5] == '.'
  {
    Pad2Digits(d.day);
    Pad2Digits(d.month);
    var y := d.year;
    assert NatToString(y) == NatToString(y / 10) + [DigitChar(y % 10)];
    assert NatToString(y / 10) == NatToString(y / 100) + [DigitChar((y / 10) % 10)];
    assert NatToString(y / 100) == NatToString(y / 1000) + [DigitChar((y / 100) % 10)];
    assert |NatToString(y / 1000)| == 1;
    var parts := [Pad2(d.day), Pad2(d.month), NatToString(y)];
    assert parts[1..][1..] == [NatToString(y)];
    assert Join(parts[1..], ".") == Pad2(d.month) + "." + NatToString(y);
  }
}
