/**
 * `formatDate`: a calendar date rendered as "DD.MM.YYYY". The model starts after the
 * date string has been decomposed into the day of the month, the zero-based month
 * and the full year.
 */
module FormatDate {
  import opened Wrappers
  import opened Decimal

  /** The text shown for the day `day` of zero-based month `monthIndex` in year `year`. */
  function FormatDate(day: nat, monthIndex: nat, year: int): (r: string)
    ensures |r| >= 6 + |IntToString(year)|
    ensures AllDigits(r[..2])
    ensures var y := IntToString(year); r[|r| - |y|..] == y && r[|r| - |y| - 1] == '.'
  {
    var month := monthIndex + 1;
    var d, m, y := ZeroPad(day), ZeroPad(month), IntToString(year);
    DigitsHaveNo(d, '.');
    DigitsHaveNo(m, '.');
    IntToStringHasNoDot(year);
    DateLayout(d, m, y);
    d + "." + m + "." + y
  }

  /** Whatever the day and month, the rendered date holds exactly two dots. */
  lemma FormatDateTwoDots(day: nat, monthIndex: nat, year: int)
    ensures multiset(FormatDate(day, monthIndex, year))['.'] == 2
  {
    var d, m, y := ZeroPad(day), ZeroPad(monthIndex + 1), IntToString(year);
    DigitsHaveNo(d, '.');
    DigitsHaveNo(m, '.');
    IntToStringHasNoDot(year);
    DateLayout(d, m, y);
  }

  /** Two digit fields of at least two digits and a dot-free year, joined by dots. */
  lemma DateLayout(d: string, m: string, y: string)
    requires AllDigits(d) && |d| >= 2 && |m| >= 2 && '.' !in d && '.' !in m && '.' !in y
    ensures var r := d + "." + m + "." + y;
      && |r| >= 6 + |y| && r[..2] == d[..2]
      && r[|r| - |y|..] == y && r[|r| - |y| - 1] == '.'
      && multiset(r)['.'] == 2
  {
    var r := d + "." + m + "." + y;
    assert r == d + ['.'] + m + ['.'] + y;
    assert r[..2] == d[..2] && r[|r| - |y|..] == y;
    assert multiset(d)['.'] == 0 && multiset(m)['.'] == 0 && multiset(y)['.'] == 0;
    assert multiset(r) == multiset(d) + multiset(".") + multiset(m) + multiset(".") + multiset(y);
  }

  /** A date as read back from text, with the month counted from one. */
  datatype DateFields = DateFields(day: nat, month: nat, year: int)

  /** Splits on '.' and reads the three pieces back as day, one-based month and year. */
  function ParseDate(s: string): Option<DateFields> {
    var parts := Split(s, '.');
    if |parts| != 3 then None
    else
      match (ParseNat(parts[0]), ParseNat(parts[1]), ParseInt(parts[2]))
      case (Some(d), Some(m), Some(y)) => Some(DateFields(d, m, y))
      case _ => None
  }

  /** Any three dot-free pieces joined by dots split back into those pieces. */
  lemma SplitThree(a: string, b: string, c: string)
    requires '.' !in a && '.' !in b && '.' !in c
    ensures Split(a + "." + b + "." + c, '.') == [a, b, c]
  {
    assert a + "." + b + "." + c == a + ['.'] + (b + ['.'] + c);
    SplitCons(a, '.', b + ['.'] + c);
    SplitCons(b, '.', c);
    SplitNone(c, '.');
  }

  lemma IntToStringHasNoDot(i: int)
    ensures '.' !in IntToString(i)
  {
    var s := IntToString(i);
    if i < 0 {
      assert s == ['-'] + s[1..];
      DigitsHaveNo(s[1..], '.');
    } else {
      DigitsHaveNo(s, '.');
    }
  }

  /**
   * Splitting the rendered date on '.' gives back the day, the month plus one and the year:
   * the month is shown one-based, and nothing is lost.
   */
  lemma FormatDateRoundTrip(day: nat, monthIndex: nat, year: int)
    ensures ParseDate(FormatDate(day, monthIndex, year)) == Some(DateFields(day, monthIndex + 1, year))
  {
    var d, m, y := ZeroPad(day), ZeroPad(monthIndex + 1), IntToString(year);
    DigitsHaveNo(d, '.');
    DigitsHaveNo(m, '.');
    IntToStringHasNoDot(year);
    SplitThree(d, m, y);
    ZeroPadRoundTrip(day);
    ZeroPadRoundTrip(monthIndex + 1);
    IntToStringRoundTrip(year);
  }

  /**
   * For a real calendar date (day 1..31, month index 0..11) the text is two digits, a dot,
   * two digits, a dot and the unpadded year: exactly two dots, and a single-digit day or
   * month is shown with one leading '0'.
   */
  lemma FormatDateLayout(day: nat, monthIndex: nat, year: int)
    requires 1 <= day <= 31 && monthIndex <= 11
    ensures var r := FormatDate(day, monthIndex, year);
      && |r| == 6 + |IntToString(year)|
      && r[2] == '.' && r[5] == '.'
      && AllDigits(r[..2]) && AllDigits(r[3..5])
      && (r[0] == '0' <==> day < 10)
      && (r[3] == '0' <==> monthIndex + 1 < 10)
      && r[6..] == IntToString(year)
      && multiset(r)['.'] == 2
  {
    var d, m, y := ZeroPad(day), ZeroPad(monthIndex + 1), IntToString(year);
    DigitsHaveNo(d, '.');
    DigitsHaveNo(m, '.');
    IntToStringHasNoDot(year);
    JoinLayout(d, m, y);
  }

  /** Two two-character fields and a dot-free tail joined by dots: where the dots are, and how many. */
  lemma JoinLayout(d: string, m: string, y: string)
    requires |d| == 2 && |m| == 2 && '.' !in d && '.' !in m && '.' !in y
    ensures var r := d + "." + m + "." + y;
      && |r| == 6 + |y| && r[2] == '.' && r[5] == '.'
      && r[..2] == d && r[3..5] == m && r[6..] == y
      && multiset(r)['.'] == 2
  {
    var r := d + "." + m + "." + y;
    assert r[..2] == d && r[3..5] == m && r[6..] == y;
    assert multiset(d)['.'] == 0 && multiset(m)['.'] == 0 && multiset(y)['.'] == 0;
    assert multiset(r) == multiset(d) + multiset(".") + multiset(m) + multiset(".") + multiset(y);
  }

  /** Worked example: 5 January 2024. */
  lemma Example()
    ensures FormatDate(5, 0, 2024) == "05.01.2024"
  {
    ExampleFields();
    assert FormatDate(5, 0, 2024) == ZeroPad(5) + "." + ZeroPad(1) + "." + IntToString(2024);
  }

  lemma ExampleFields()
    ensures ZeroPad(5) == "05" && ZeroPad(1) == "01" && IntToString(2024) == "2024"
  {
    assert NatToString(20) == "20";
    assert NatToString(202) == NatToString(20) + "2";
    assert NatToString(2024) == NatToString(202) + "4";
  }
}
