/** The template filters of the web application: the `m:ss` position of a
    cue and the URLs of stored content. The content host is a parameter
    here rather than read from the environment. */
module AskamaFilters {
  import opened Wrappers
  import opened Text

  /** `second_format`: nothing for zero, otherwise whole minutes (not
      padded), a colon and the remaining seconds padded to two digits. */
  function SecondFormat(seconds: nat): (r: string)
    ensures r == [] <==> seconds == 0
  {
    if seconds == 0 then ""
    else
      var mm := seconds / 60;
      var ss := seconds - mm * 60;
      Digits(mm) + ":" + Pad(ss, 2)
  }

  /** Reads an `m:ss` text back into seconds. */
  function ParseMinutes(text: string): Option<nat>
  {
    match SplitOnce(text, ':')
    case None => None
    case Some((mm, ss)) =>
      if mm != [] && IsDigits(mm) && |ss| == 2 && IsDigits(ss) && DigitsValue(ss) < 60
      then Some(DigitsValue(mm) * 60 + DigitsValue(ss))
      else None
  }

  /** The seconds left after whole minutes are the remainder modulo 60. */
  lemma SecondFormatShape(seconds: nat)
    requires seconds > 0
    ensures SecondFormat(seconds) == Digits(seconds / 60) + [':'] + Pad(seconds % 60, 2)
  {
    assert seconds - seconds / 60 * 60 == seconds % 60;
  }

  /** Minutes and seconds fields around a colon read back as they were. */
  lemma ParseFields(m: string, s: string)
    requires m != [] && IsDigits(m) && |s| == 2 && IsDigits(s) && DigitsValue(s) < 60
    ensures SplitOnce(m + [':'] + s, ':') == Some((m, s))
    ensures ParseMinutes(m + [':'] + s) == Some(DigitsValue(m) * 60 + DigitsValue(s))
  {
    assert ':' !in m by {
      assert forall i :: 0 <= i < |m| ==> IsDigit(m[i]);
    }
    IndexOfAfter(m, ':', s);
    var text := m + [':'] + s;
    assert text[..|m|] == m && text[|m| + 1..] == s;
  }

  /** A positive number of seconds is written as minutes and seconds that
      add back up to it, the seconds below 60 and always two digits. */
  lemma SecondFormatRoundTrip(seconds: nat)
    requires seconds > 0
    ensures ParseMinutes(SecondFormat(seconds)) == Some(seconds)
    ensures var parts := SplitOnce(SecondFormat(seconds), ':').value;
      && parts.0 == Digits(seconds / 60)
      && |parts.1| == 2 && DigitsValue(parts.1) == seconds % 60
  {
    var mm, ss := seconds / 60, seconds % 60;
    var m, s := Digits(mm), Pad(ss, 2);
    SecondFormatShape(seconds);
    DigitsBelow100(ss);
    DigitsRoundTrip(mm);
    PadRoundTrip(ss, 2);
    hide SecondFormat, Digits, Pad, DigitsValue, ParseMinutes, SplitOnce;
    ParseFields(m, s);
    assert mm * 60 + ss == seconds;
  }

  /** `content_url`: a protocol-relative URL of `key` on `host`. */
  function ContentUrl(host: string, key: string): (r: string)
    ensures |r| == |host| + |key| + 3
  {
    "//" + host + "/" + key
  }

  /** When the host has no `/`, the URL splits back into host and key. */
  lemma ContentUrlSplit(host: string, key: string)
    requires '/' !in host
    ensures ContentUrl(host, key)[..2] == "//"
    ensures SplitOnce(ContentUrl(host, key)[2..], '/') == Some((host, key))
  {
    var rest := ContentUrl(host, key)[2..];
    assert rest == host + ['/'] + key;
    IndexOfAfter(host, '/', key);
    assert rest[..|host|] == host && rest[|host| + 1..] == key;
  }

  /** `content_url_opt`: the URL of the key when there is one, and the empty
      text (no thumbnail) when there is none. */
  function ContentUrlOpt(host: string, key: Option<string>): (r: string)
    ensures r == [] <==> key.None?
    ensures key.Some? ==> r == ContentUrl(host, key.value)
  {
    match key
    case None => ""
    case Some(k) => ContentUrl(host, k)
  }
}
