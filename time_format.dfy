/**
 * The 12-hour creation-time label of a task list row. The ISO timestamp is
 * taken as already split into local hours and minutes; an absent or empty
 * timestamp is `None`.
 */
module TimeFormat {
  import opened Wrappers
  import opened Decimal

  /** Local wall-clock time as `Date.getHours()` and `Date.getMinutes()` report it. */
  datatype Clock = Clock(hours: int, minutes: int)

  predicate ValidClock(c: Clock) {
    0 <= c.hours < 24 && 0 <= c.minutes < 60
  }

  /** `s.padStart(width, fill)` for a one-character fill. */
  function PadStart(s: string, width: nat, fill: char): (r: string)
    ensures |r| == if |s| >= width then |s| else width
    ensures r[|r| - |s|..] == s
    ensures forall i :: 0 <= i < |r| - |s| ==> r[i] == fill
  {
    if |s| >= width then s else seq(width - |s|, _ => fill) + s
  }

  /** `hours % 12 || 12`: the hour on a 12-hour dial. */
  function DisplayHour(hours: int): (h: nat)
    requires 0 <= hours < 24
    ensures 1 <= h <= 12
    ensures h % 12 == hours % 12
  {
    if hours % 12 == 0 then 12 else hours % 12
  }

  function Meridiem(hours: int): (s: string)
    ensures |s| == 2
    ensures s == "PM" <==> hours >= 12
    ensures s == "AM" <==> hours < 12
  {
    if hours >= 12 then "PM" else "AM"
  }

  /** Two-digit minutes, left-padded with "0". */
  function TwoDigitMinutes(minutes: nat): (s: string)
    requires minutes < 60
    ensures |s| == 2 && AllDigits(s) && Parse(s) == minutes
  {
    PaddedMinutesParse(minutes);
    PadStart(Show(minutes), 2, '0')
  }

  lemma PaddedMinutesParse(minutes: nat)
    requires minutes < 60
    ensures var r := PadStart(Show(minutes), 2, '0');
      |r| == 2 && AllDigits(r) && Parse(r) == minutes
  {
    var r := PadStart(Show(minutes), 2, '0');
    if minutes < 10 {
      assert r == ['0'] + Show(minutes) by {
        assert |Show(minutes)| == 1;
      }
      ParseLeadingZero(Show(minutes));
    } else {
      assert r == Show(minutes) by {
        assert |Show(minutes)| >= 2;
      }
    }
    ParseShow(minutes);
  }

  /** `formatTime`: "" for a missing timestamp, otherwise `<h>:<mm> <AM|PM>`. */
  function FormatTime(stamp: Option<Clock>): (r: string)
    requires stamp.Some? ==> ValidClock(stamp.value)
    ensures stamp.None? <==> r == ""
  {
    match stamp
    case None => ""
    case Some(c) => Label(Show(DisplayHour(c.hours)), TwoDigitMinutes(c.minutes), Meridiem(c.hours))
  }

  /** The template `${h}:${mm} ${ampm}`. */
  function Label(h: string, mm: string, ampm: string): string {
    h + ":" + mm + " " + ampm
  }

  /**
   * A label has seven or eight characters: the hour, a colon, two minute
   * digits, a space and "AM" before noon, "PM" from noon on.
   */
  lemma FormatTimeShape(c: Clock)
    requires ValidClock(c)
    ensures var r := FormatTime(Some(c));
      && 7 <= |r| <= 8 && r[|r| - 6] == ':' && r[|r| - 3] == ' '
      && (r[|r| - 2..] == "PM" <==> c.hours >= 12)
      && (r[|r| - 2..] == "AM" <==> c.hours < 12)
  {
    var hs, mm, ap := Show(DisplayHour(c.hours)), TwoDigitMinutes(c.minutes), Meridiem(c.hours);
    HourDigits(c.hours);
    LabelParts(hs, mm, ap);
  }

  /** The hour takes one or two digits. */
  lemma HourDigits(hours: int)
    requires 0 <= hours < 24
    ensures 1 <= |Show(DisplayHour(hours))| <= 2
  {
    var h := DisplayHour(hours);
    if h >= 10 {
      assert Show(h) == Show(h / 10) + [DigitChar(h % 10)];
    }
  }

  /** Reads a label of the form `<h>:<mm> <AM|PM>` back into a 24-hour clock. */
  function ParseTime(s: string): (c: Option<Clock>)
    ensures c.Some? ==> ValidClock(c.value)
  {
    if |s| < 7 then None
    else
      var hs, ms, suffix := s[..|s| - 6], s[|s| - 5..|s| - 3], s[|s| - 2..];
      if s[|s| - 6] != ':' || s[|s| - 3] != ' ' || !AllDigits(hs) || !AllDigits(ms) then None
      else if suffix != "AM" && suffix != "PM" then None
      else if Parse(ms) >= 60 then None
      else Some(Clock(Parse(hs) % 12 + (if suffix == "PM" then 12 else 0), Parse(ms)))
  }

  /** Where the parts of `<h>:<mm> <AM|PM>` sit, counted from the end. */
  lemma LabelParts(h: string, mm: string, suffix: string)
    requires |mm| == 2 && |suffix| == 2
    ensures var r := Label(h, mm, suffix);
      && |r| == |h| + 6
      && r[..|r| - 6] == h && r[|r| - 6] == ':'
      && r[|r| - 5..|r| - 3] == mm && r[|r| - 3] == ' '
      && r[|r| - 2..] == suffix
  {
  }

  /** The label loses nothing: the clock it was made from can be read back. */
  lemma {:induction false} FormatTimeRoundTrip(c: Clock)
    requires ValidClock(c)
    ensures ParseTime(FormatTime(Some(c))) == Some(c)
  {
    var hs, ms, suffix := Show(DisplayHour(c.hours)), TwoDigitMinutes(c.minutes), Meridiem(c.hours);
    var r := Label(hs, ms, suffix);
    assert FormatTime(Some(c)) == r;
    LabelParts(hs, ms, suffix);
    ReadBack(r, hs, ms, suffix);
    HourReadBack(c.hours);
    assert Clock(Parse(hs) % 12 + (if suffix == "PM" then 12 else 0), Parse(ms)) == c;
  }

  /** The hour digits and the suffix together give back the 24-hour hour. */
  lemma HourReadBack(hours: int)
    requires 0 <= hours < 24
    ensures Parse(Show(DisplayHour(hours))) % 12 + (if Meridiem(hours) == "PM" then 12 else 0) == hours
  {
    ParseShow(DisplayHour(hours));
  }

  /** ParseTime on a string already known to be split into well-formed parts. */
  lemma ReadBack(r: string, hs: string, ms: string, suffix: string)
    requires |r| >= 7 && r[..|r| - 6] == hs && r[|r| - 5..|r| - 3] == ms && r[|r| - 2..] == suffix
    requires r[|r| - 6] == ':' && r[|r| - 3] == ' '
    requires AllDigits(hs) && AllDigits(ms) && Parse(ms) < 60
    requires suffix == "AM" || suffix == "PM"
    ensures ParseTime(r) == Some(Clock(Parse(hs) % 12 + (if suffix == "PM" then 12 else 0), Parse(ms)))
  {
  }

  lemma ShowTwelve()
    ensures Show(12) == "12"
  {
    assert Show(1) == "1";
    assert DigitChar(2) == '2';
  }

  /** Midnight reads "12:mm AM" and noon "12:mm PM". */
  lemma {:induction false} MidnightAndNoon(m: int)
    requires 0 <= m < 60
    ensures FormatTime(Some(Clock(0, m))) == "12:" + TwoDigitMinutes(m) + " " + "AM"
    ensures FormatTime(Some(Clock(12, m))) == "12:" + TwoDigitMinutes(m) + " " + "PM"
  {
    var mm := TwoDigitMinutes(m);
    ShowTwelve();
    assert DisplayHour(0) == 12 && DisplayHour(12) == 12;
    LabelOfTwelve(mm, "AM");
    LabelOfTwelve(mm, "PM");
  }

  lemma LabelOfTwelve(mm: string, ampm: string)
    requires |ampm| == 2
    ensures Label("12", mm, ampm) == "12:" + mm + " " + ampm
  {
  }
}
