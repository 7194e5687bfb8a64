/** The time codec of `Subtitle::time_format`: a time, here in whole
    milliseconds, rendered as `HH:MM:SS<sep>mmm`. */
module TimeCodec {
  import opened Wrappers
  import opened Text

  const MillisPerHour := 3600000
  const MillisPerMinute := 60000
  const MillisPerSecond := 1000

  datatype Clock = Clock(hours: nat, minutes: nat, seconds: nat, millis: nat)

  /** Hours, minutes, seconds and milliseconds of `t`; hours are unbounded. */
  function ClockOf(t: nat): (c: Clock)
    ensures c.hours * MillisPerHour + c.minutes * MillisPerMinute
            + c.seconds * MillisPerSecond + c.millis == t
    ensures c.minutes < 60 && c.seconds < 60 && c.millis < 1000
  {
    var inHour := t % MillisPerHour;
    var inMinute := inHour % MillisPerMinute;
    Clock(t / MillisPerHour, inHour / MillisPerMinute,
          inMinute / MillisPerSecond, inMinute % MillisPerSecond)
  }

  /** The decomposition is the only one with minutes and seconds below 60 and
      milliseconds below 1000. */
  lemma ClockUnique(c: Clock, t: nat)
    requires c.hours * MillisPerHour + c.minutes * MillisPerMinute
             + c.seconds * MillisPerSecond + c.millis == t
    requires c.minutes < 60 && c.seconds < 60 && c.millis < 1000
    ensures c == ClockOf(t)
  {
    var secs := c.seconds * 1000 + c.millis;
    var below := c.minutes * 60000 + secs;
    assert t == c.hours * 3600000 + below && below < 3600000;
    assert t / 3600000 == c.hours && t % 3600000 == below;
    assert below / 60000 == c.minutes && below % 60000 == secs;
    assert secs / 1000 == c.seconds && secs % 1000 == c.millis;
  }

  /** `format!("{:02}:{:02}:{:02}{}{:03}", h, m, s, d, ms)` */
  function TimeLabel(t: nat, d: string): string
  {
    var c := ClockOf(t);
    Pad(c.hours, 2) + ":" + Pad(c.minutes, 2) + ":" + Pad(c.seconds, 2) + d + Pad(c.millis, 3)
  }

  /** `time_format(t, d)`: peels hours, minutes and seconds off `t` in turn. */
  method TimeFormat(t: nat, d: string) returns (formatted: string)
    ensures formatted == TimeLabel(t, d)
  {
    var rest := t;
    var h := rest / MillisPerHour;
    rest := rest - h * MillisPerHour;
    var m := rest / MillisPerMinute;
    rest := rest - m * MillisPerMinute;
    var s := rest / MillisPerSecond;
    rest := rest - s * MillisPerSecond;
    var ms := rest;
    ClockUnique(Clock(h, m, s, ms), t);
    formatted := Pad(h, 2) + ":" + Pad(m, 2) + ":" + Pad(s, 2) + d + Pad(ms, 3);
  }

  /** Reads a label back, from the right: three digits of milliseconds, the
      separator, two digits of seconds, `:`, two of minutes, `:`, and the
      remaining (at least one) digits of hours. */
  function ParseTimeLabel(text: string, d: string): (r: Option<nat>)
  {
    var k := |d|;
    if |text| < 10 + k then None
    else ParseFields(text[..|text| - 9 - k], text[|text| - 9 - k..], d)
  }

  /** The hours digits `hh`, then `tail` = `:mm:ss<sep>mmm`. */
  function ParseFields(hh: string, tail: string, d: string): (r: Option<nat>)
    requires |tail| == 9 + |d|
  {
    var k := |d|;
    var mm, ss, mmm := tail[1..3], tail[4..6], tail[6 + k..];
    if tail[0] == ':' && tail[3] == ':' && tail[6..6 + k] == d
       && IsDigits(hh) && IsDigits(mm) && IsDigits(ss) && IsDigits(mmm)
    then Some(FieldsValue(hh, mm, ss, mmm))
    else None
  }

  lemma PadWidth(n: nat, width: nat)
    requires |Digits(n)| <= width
    ensures |Pad(n, width)| == width
  {
  }

  /** The value of four digit fields, as a time in milliseconds. */
  function FieldsValue(hh: string, mm: string, ss: string, mmm: string): nat
    requires IsDigits(hh) && IsDigits(mm) && IsDigits(ss) && IsDigits(mmm)
  {
    DigitsValue(hh) * MillisPerHour + DigitsValue(mm) * MillisPerMinute
    + DigitsValue(ss) * MillisPerSecond + DigitsValue(mmm)
  }

  lemma ParseTail(hh: string, mm: string, ss: string, mmm: string, d: string)
    requires IsDigits(hh) && IsDigits(mm) && IsDigits(ss) && IsDigits(mmm)
    requires |mm| == 2 && |ss| == 2 && |mmm| == 3
    ensures |":" + mm + ":" + ss + d + mmm| == 9 + |d|
    ensures ParseFields(hh, ":" + mm + ":" + ss + d + mmm, d) == Some(FieldsValue(hh, mm, ss, mmm))
  {
    var tail := ":" + mm + ":" + ss + d + mmm;
    var k := |d|;
    assert tail[0] == ':' && tail[3] == ':' && tail[6..6 + k] == d;
    assert tail[1..3] == mm && tail[4..6] == ss && tail[6 + k..] == mmm;
  }

  /** Reading back a label assembled from its four digit fields. */
  lemma ParseAssembled(hh: string, mm: string, ss: string, mmm: string, d: string)
    requires IsDigits(hh) && IsDigits(mm) && IsDigits(ss) && IsDigits(mmm)
    requires |hh| >= 1 && |mm| == 2 && |ss| == 2 && |mmm| == 3
    ensures ParseTimeLabel(hh + ":" + mm + ":" + ss + d + mmm, d) == Some(FieldsValue(hh, mm, ss, mmm))
  {
    var tail := ":" + mm + ":" + ss + d + mmm;
    ParseTail(hh, mm, ss, mmm, d);
    var text := hh + tail;
    var n, k := |text|, |d|;
    assert text == hh + ":" + mm + ":" + ss + d + mmm;
    assert text[..n - 9 - k] == hh && text[n - 9 - k..] == tail;
  }

  /** Every time label reads back as the time it renders, whatever the
      separator: no two times share a label. */
  lemma TimeLabelRoundTrip(t: nat, d: string)
    ensures ParseTimeLabel(TimeLabel(t, d), d) == Some(t)
  {
    var c := ClockOf(t);
    var hh, mm, ss, mmm := Pad(c.hours, 2), Pad(c.minutes, 2), Pad(c.seconds, 2), Pad(c.millis, 3);
    assert TimeLabel(t, d) == hh + ":" + mm + ":" + ss + d + mmm;
    hide TimeLabel, ParseTimeLabel, ClockOf;
    DigitsBelow100(c.minutes);
    DigitsBelow100(c.seconds);
    DigitsBelow1000(c.millis);
    PadRoundTrip(c.hours, 2);
    PadRoundTrip(c.minutes, 2);
    PadRoundTrip(c.seconds, 2);
    PadRoundTrip(c.millis, 3);
    ParseAssembled(hh, mm, ss, mmm, d);
  }

  /** Below 100 hours every label has the same width; from 100 hours on the
      hour field widens instead of wrapping. */
  lemma TimeLabelWidth(t: nat, d: string)
    ensures t < 100 * MillisPerHour ==> |TimeLabel(t, d)| == 11 + |d|
    ensures t >= 100 * MillisPerHour ==> |TimeLabel(t, d)| > 11 + |d|
  {
    var c := ClockOf(t);
    DigitsBelow100(c.minutes);
    DigitsBelow100(c.seconds);
    DigitsBelow1000(c.millis);
    if t < 100 * MillisPerHour {
      DigitsBelow100(c.hours);
    } else {
      assert c.hours >= 100;
      assert |Digits(c.hours)| > 2 by {
        assert |Digits(c.hours / 10)| > 1;
      }
    }
  }

  /** A label holds only digits, `:` and the separator. */
  lemma TimeLabelChars(t: nat, d: string, x: char)
    requires x in TimeLabel(t, d)
    ensures IsDigit(x) || x == ':' || x in d
  {
    var c := ClockOf(t);
    var hh, mm, ss, mmm := Pad(c.hours, 2), Pad(c.minutes, 2), Pad(c.seconds, 2), Pad(c.millis, 3);
    assert TimeLabel(t, d) == hh + ":" + mm + ":" + ss + d + mmm;
  }

  lemma PadExamples()
    ensures Pad(0, 2) == "00" && Pad(0, 3) == "000"
    ensures Pad(1, 2) == "01" && Pad(2, 2) == "02" && Pad(5, 2) == "05"
  {
  }

  lemma MillisExample()
    ensures Pad(125, 3) == "125"
  {
    assert Digits(125) == "125" by {
      assert Digits(12) == "12";
    }
  }

  /** One hour, two minutes, five seconds and 125 milliseconds. */
  lemma TimeLabelExample()
    ensures TimeLabel(3725125, ".") == "01:02:05.125"
  {
    ClockUnique(Clock(1, 2, 5, 125), 3725125);
    PadExamples();
    MillisExample();
    hide Pad, ClockOf;
  }

  /** The start of a recording. */
  lemma TimeLabelZero()
    ensures TimeLabel(0, ",") == "00:00:00,000"
  {
    ClockUnique(Clock(0, 0, 0, 0), 0);
    PadExamples();
    hide Pad, ClockOf;
  }
}
