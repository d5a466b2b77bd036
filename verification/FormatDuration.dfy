/**
 * `formatDuration`: a whole number of minutes rendered as "HH:MM hour" or "HH:MM hours".
 */
module FormatDuration {
  import opened Wrappers
  import opened Decimal

  /** The unit word: singular exactly when the hour count is 1 (zero hours is plural). */
  function UnitWord(hours: nat): (w: string)
    ensures w == "hour" || w == "hours"
    ensures w == "hour" <==> hours == 1
  {
    if hours == 1 then "hour" else "hours"
  }

  /** The text shown for a duration of `duration` minutes. */
  function FormatDuration(duration: nat): (r: string)
    ensures var k := |r| - |UnitWord(duration / 60)|;
      && 6 <= k && r[k..] == UnitWord(duration / 60)
      && r[k - 1] == ' ' && r[k - 4] == ':'
      && AllDigits(r[..k - 4]) && AllDigits(r[k - 3..k - 1])
  {
    var hours := duration / 60;
    var minutes := duration % 60;
    var r := ZeroPad(hours) + ":" + ZeroPad(minutes) + " " + UnitWord(hours);
    DurationLayout(ZeroPad(hours), ZeroPad(minutes), UnitWord(hours));
    r
  }

  /** Read from the end, `h ":" m " " u` is the unit, a space, two digits, a colon and the hour digits. */
  lemma DurationLayout(h: string, m: string, u: string)
    requires AllDigits(h) && |h| >= 2 && AllDigits(m) && |m| == 2
    ensures var r := h + ":" + m + " " + u;
      var k := |r| - |u|;
      && 6 <= k && r[k..] == u && r[k - 1] == ' ' && r[k - 4] == ':'
      && r[..k - 4] == h && r[k - 3..k - 1] == m
  {
    var r := h + ":" + m + " " + u;
    assert r == h + [':'] + m + [' '] + u;
    var k := |r| - |u|;
    assert k == |h| + 4;
    assert r[..k - 4] == h && r[k - 3..k - 1] == m && r[k..] == u;
  }

  /** The three fields of a rendered duration, as text. */
  datatype Fields = Fields(hourField: string, minuteField: string, unit: string)

  /** Cuts "H…H:MM unit" at its first ':' and the first ' ' after it. */
  function ReadFields(s: string): Option<Fields> {
    var byColon := Split(s, ':');
    if |byColon| != 2 then None
    else
      var bySpace := Split(byColon[1], ' ');
      if |bySpace| != 2 then None
      else Some(Fields(byColon[0], bySpace[0], bySpace[1]))
  }

  /** Reads a rendered duration back as a number of minutes, checking the shape `\d{2,}:\d{2} (hour|hours)`. */
  function ParseDuration(s: string): Option<nat> {
    match ReadFields(s)
    case None => None
    case Some(f) =>
      if |f.hourField| < 2 || |f.minuteField| != 2 || !(f.unit == "hour" || f.unit == "hours") then None
      else
        match (ParseNat(f.hourField), ParseNat(f.minuteField))
        case (Some(h), Some(m)) => Some(h * 60 + m)
        case _ => None
  }

  /**
   * Hours and minutes decompose the duration: hours * 60 + minutes == duration with minutes < 60.
   * This is the law of natural division itself; FormatDurationFields ties it to the rendered
   * text by reading the hour field back as duration / 60 and the minute field as duration % 60.
   */
  lemma Decomposition(duration: nat)
    ensures duration / 60 * 60 + duration % 60 == duration
    ensures duration % 60 < 60
  {
  }

  /**
   * The rendered text splits into an hour field of at least two digits (exactly two below
   * 100 hours, with a leading '0' below 10), a two-digit minute field and the unit word,
   * and each field reads back as its part of the decomposition.
   */
  lemma FormatDurationFields(duration: nat)
    ensures ReadFields(FormatDuration(duration)).Some?
    ensures var f := ReadFields(FormatDuration(duration)).value;
      && AllDigits(f.hourField) && |f.hourField| >= 2
      && (|f.hourField| == 2 <==> duration / 60 < 100)
      && (f.hourField[0] == '0' <==> duration / 60 < 10)
      && ParseNat(f.hourField) == Some(duration / 60)
      && AllDigits(f.minuteField) && |f.minuteField| == 2
      && ParseNat(f.minuteField) == Some(duration % 60)
      && (f.unit == "hour" <==> duration / 60 == 1)
      && (f.unit == "hours" <==> duration / 60 != 1)
  {
    var hours, minutes := duration / 60, duration % 60;
    ReadFieldsOf(ZeroPad(hours), ZeroPad(minutes), UnitWord(hours));
    ZeroPadRoundTrip(hours);
    ZeroPadRoundTrip(minutes);
  }

  /** Any two digit fields and a unit word without ':' or ' ' are read back as they were joined. */
  lemma ReadFieldsOf(h: string, m: string, u: string)
    requires AllDigits(h) && AllDigits(m) && ':' !in u && ' ' !in u
    ensures ReadFields(h + ":" + m + " " + u) == Some(Fields(h, m, u))
  {
    assert ':' !in m + " " + u by {
      DigitsHaveNo(m, ':');
    }
    assert h + ":" + m + " " + u == h + [':'] + (m + " " + u);
    SplitAfterDigits(h, ':', m + " " + u);
    SplitAfterDigits(m, ' ', u);
  }

  /** Digits, one non-digit separator, and a tail without it split into the digits and the tail. */
  lemma SplitAfterDigits(head: string, c: char, rest: string)
    requires AllDigits(head) && !IsDigit(c) && c !in rest
    ensures Split(head + [c] + rest, c) == [head, rest]
  {
    DigitsHaveNo(head, c);
    SplitCons(head, c, rest);
    SplitNone(rest, c);
  }

  /** Reading a rendered duration back gives the duration: the rendering loses nothing. */
  lemma FormatDurationRoundTrip(duration: nat)
    ensures ParseDuration(FormatDuration(duration)) == Some(duration)
  {
    FormatDurationFields(duration);
    Decomposition(duration);
  }

  /** Distinct durations are rendered differently. */
  lemma FormatDurationInjective(a: nat, b: nat)
    requires FormatDuration(a) == FormatDuration(b)
    ensures a == b
  {
    FormatDurationRoundTrip(a);
    FormatDurationRoundTrip(b);
  }

  /** Worked examples: 125, 60 and 45 minutes. */
  lemma ExampleTwoHoursFive()
    ensures FormatDuration(125) == "02:05 hours"
  {
    assert ZeroPad(2) == "02" && ZeroPad(5) == "05";
  }

  lemma ExampleOneHour()
    ensures FormatDuration(60) == "01:00 hour"
  {
    assert ZeroPad(1) == "01" && ZeroPad(0) == "00";
  }

  lemma ExampleNoHours()
    ensures FormatDuration(45) == "00:45 hours"
  {
    assert NatToString(4) == "4" && NatToString(45) == "45";
    assert ZeroPad(0) == "00" && ZeroPad(45) == "45";
  }
}
