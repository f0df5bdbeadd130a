/** Calendar stamps and the strftime patterns the bot prints them with:
    "%Y-%m-%d %H:%M" for match times, "%m/%d" for the digest's notion of
    today. The timezone conversion that produces a stamp is not modelled;
    stamps arrive already converted. */
module Stamps {
  import opened Text

  datatype Date = Date(year: int, month: int, day: int)

  /** A local wall-clock minute. */
  datatype Stamp = Stamp(date: Date, hour: int, minute: int)

  predicate ValidDate(d: Date)
  {
    0 <= d.year <= 9999 && 1 <= d.month <= 12 && 1 <= d.day <= 31
  }

  predicate ValidStamp(s: Stamp)
  {
    ValidDate(s.date) && 0 <= s.hour < 24 && 0 <= s.minute < 60
  }

  /** A stamp as `datetime` produces it: every field in range. */
  type LocalStamp = s: Stamp | ValidStamp(s) witness Stamp(Date(1970, 1, 1), 0, 0)

  /** Two-digit zero-padded field (`%m`, `%d`, `%H`, `%M`). */
  function Pad2(n: int): (r: string)
    requires 0 <= n < 100
    ensures |r| == 2 && AllDigits(r)
  {
    [DigitChar(n / 10), DigitChar(n % 10)]
  }

  /** Four-digit zero-padded year (`%Y`). */
  function Pad4(n: int): (r: string)
    requires 0 <= n < 10000
    ensures |r| == 4 && AllDigits(r)
  {
    Pad2(n / 100) + Pad2(n % 100)
  }

  lemma Pad2Injective(a: int, b: int)
    requires 0 <= a < 100 && 0 <= b < 100
    requires Pad2(a) == Pad2(b)
    ensures a == b
  {
    DigitRoundTrip(a / 10);
    DigitRoundTrip(b / 10);
    DigitRoundTrip(a % 10);
    DigitRoundTrip(b % 10);
    assert Pad2(a)[0] == Pad2(b)[0] && Pad2(a)[1] == Pad2(b)[1];
  }

  lemma Pad4Injective(a: int, b: int)
    requires 0 <= a < 10000 && 0 <= b < 10000
    requires Pad4(a) == Pad4(b)
    ensures a == b
  {
    assert Pad4(a)[..2] == Pad2(a / 100) && Pad4(b)[..2] == Pad2(b / 100);
    assert Pad4(a)[2..] == Pad2(a % 100) && Pad4(b)[2..] == Pad2(b % 100);
    Pad2Injective(a / 100, b / 100);
    Pad2Injective(a % 100, b % 100);
  }

  /** `strftime("%Y-%m-%d")`. */
  function FormatDate(d: Date): (r: string)
    requires ValidDate(d)
    ensures |r| == 10
  {
    Pad4(d.year) + "-" + Pad2(d.month) + "-" + Pad2(d.day)
  }

  /** `strftime("%H:%M")`. */
  function FormatClock(s: Stamp): (r: string)
    requires ValidStamp(s)
    ensures |r| == 5
  {
    Pad2(s.hour) + ":" + Pad2(s.minute)
  }

  /** `strftime("%Y-%m-%d %H:%M")`, the format of every time string the
      API client produces. */
  function FormatStamp(s: Stamp): (r: string)
    requires ValidStamp(s)
    ensures |r| == 16
  {
    FormatDate(s.date) + " " + FormatClock(s)
  }

  /** `strftime("%m/%d")`, the digest's notion of "today". */
  function FormatMonthDay(d: Date): (r: string)
    requires ValidDate(d)
    ensures |r| == 5
  {
    Pad2(d.month) + "/" + Pad2(d.day)
  }

  /** The formatted date names the date: different valid dates print
      differently. */
  lemma FormatDateInjective(a: Date, b: Date)
    requires ValidDate(a) && ValidDate(b)
    ensures FormatDate(a) == FormatDate(b) <==> a == b
  {
    if FormatDate(a) == FormatDate(b) {
      var fa, fb := FormatDate(a), FormatDate(b);
      assert fa[..4] == Pad4(a.year) && fb[..4] == Pad4(b.year);
      assert fa[5..7] == Pad2(a.month) && fb[5..7] == Pad2(b.month);
      assert fa[8..] == Pad2(a.day) && fb[8..] == Pad2(b.day);
      Pad4Injective(a.year, b.year);
      Pad2Injective(a.month, b.month);
      Pad2Injective(a.day, b.day);
    }
  }

  /** Where the pieces of a formatted stamp sit: the date in characters
      0-9, the clock in 11-15, a '-' at index 4. */
  lemma FormatStampLayout(s: Stamp)
    requires ValidStamp(s)
    ensures FormatStamp(s)[..10] == FormatDate(s.date)
    ensures FormatStamp(s)[11..16] == FormatClock(s)
    ensures FormatStamp(s)[4] == '-'
    ensures FormatStamp(s)[5..] == Pad2(s.date.month) + "-" + Pad2(s.date.day) + " " + FormatClock(s)
  {
    var f := FormatStamp(s);
    assert f[4] == FormatDate(s.date)[4];
    assert f[5..] == FormatDate(s.date)[5..] + " " + FormatClock(s);
  }

  /** Comparing a "%H:%M" string with "09:00" as Python strings is
      comparing the hour with 9. */
  lemma ClockBeforeNine(s: Stamp)
    requires ValidStamp(s)
    ensures StrLess(FormatClock(s), "09:00") <==> s.hour < 9
  {
    var c := FormatClock(s);
    var h1, h0 := s.hour / 10, s.hour % 10;
    assert c[0] == DigitChar(h1) && c[1] == DigitChar(h0);
    DigitRoundTrip(h1);
    DigitRoundTrip(h0);
    if h1 == 0 && h0 == 9 {
      var m := Pad2(s.minute);
      assert c[1..] == "9:" + m && c[1..][1..] == ":" + m && c[1..][1..][1..] == m;
      assert "09:00"[1..] == "9:00" && "9:00"[1..] == ":00" && ":00"[1..] == "00";
      assert c[0] == '0' && c[1] == '9' && c[2] == ':';
      assert StrLess(c, "09:00") == StrLess(c[1..], "9:00");
      assert StrLess(c[1..], "9:00") == StrLess(c[1..][1..], ":00");
      assert StrLess(c[1..][1..], ":00") == StrLess(m, "00");
      assert m[0] >= '0' && m[1] >= '0';
      if m[0] == '0' {
        assert m[1..] == [m[1]] && "00"[1..] == "0";
        assert StrLess(m, "00") == StrLess([m[1]], "0");
        if m[1] == '0' {
          assert [m[1]][1..] == "" && "0"[1..] == "";
        }
      }
      assert !StrLess(m, "00");
    }
  }
}
