/**
 * lib/utils/format-timestamp.ts: the `MM:SS` / `HH:MM:SS` labels shown next
 * to each segment and written into the plain-text export.
 */
module Timestamps {
  import opened Wrappers
  import opened Strings
  import opened RealMath

  /** `formatTimestamp`: the hours appear only when there is at least one. */
  function FormatTimestamp(seconds: real): string {
    var hours := Hours(seconds);
    var minutes := MinutesOfHour(seconds);
    var remaining := SecondsOfMinute(seconds);
    if hours > 0 then PadNumber(hours, 2) + ":" + PadNumber(minutes, 2) + ":" + PadNumber(remaining, 2)
    else PadNumber(minutes, 2) + ":" + PadNumber(remaining, 2)
  }

  /**
   * Reads a label back into whole seconds: `MM:SS` (exactly five characters)
   * or `H…H:MM:SS` (at least two hour digits).
   */
  function ParseTimestamp(s: string): Option<int> {
    if |s| == 5 && s[2] == ':' && AllDigits(s[..2]) && AllDigits(s[3..]) then
      Some(DigitsValue(s[..2]) * 60 + DigitsValue(s[3..]))
    else if |s| >= 8 && s[|s| - 6] == ':' && s[|s| - 3] == ':' && AllDigits(s[..|s| - 6])
            && AllDigits(s[|s| - 5..|s| - 3]) && AllDigits(s[|s| - 2..]) then
      Some(DigitsValue(s[..|s| - 6]) * 3600 + DigitsValue(s[|s| - 5..|s| - 3]) * 60 + DigitsValue(s[|s| - 2..]))
    else None
  }

  /** A label `mm:ss` of two two-digit fields reads back as its seconds. */
  lemma ReadShort(text: string, m: string, sec: string, total: int)
    requires AllDigits(m) && AllDigits(sec) && |m| == 2 && |sec| == 2
    requires text == m + ":" + sec
    requires DigitsValue(m) * 60 + DigitsValue(sec) == total
    ensures |text| == 5
    ensures ParseTimestamp(text) == Some(total)
  {
    assert text[..2] == m && text[3..] == sec;
  }

  /** A label `h:mm:ss` with at least two hour digits reads back as its seconds. */
  lemma ReadLong(h: string, m: string, sec: string, total: int)
    requires AllDigits(h) && AllDigits(m) && AllDigits(sec) && |h| >= 2 && |m| == 2 && |sec| == 2
    requires DigitsValue(h) * 3600 + DigitsValue(m) * 60 + DigitsValue(sec) == total
    ensures ParseTimestamp(h + ":" + m + ":" + sec) == Some(total)
  {
    LongSlices(h, m, sec);
  }

  /** Where the three fields of `h:mm:ss` sit. */
  lemma LongSlices(h: string, m: string, sec: string)
    requires |h| >= 2 && |m| == 2 && |sec| == 2
    ensures var s := h + ":" + m + ":" + sec;
            |s| == |h| + 6 && s[..|s| - 6] == h && s[|s| - 5..|s| - 3] == m && s[|s| - 2..] == sec
            && s[|s| - 6] == ':' && s[|s| - 3] == ':'
  {
    var a := h + ":";
    var b := a + m;
    var c := b + ":";
    var s := c + sec;
    assert s[..|c|] == c && s[|c|..] == sec;
    assert c[..|b|] == b && c[|b|] == ':';
    assert b[..|a|] == a && b[|a|..] == m;
    assert a[..|h|] == h && a[|h|] == ':';
  }

  /** For non-negative fields the labels are the zero-padded fields. */
  lemma TimestampText(seconds: real)
    requires Hours(seconds) >= 0 && MinutesOfHour(seconds) >= 0 && SecondsOfMinute(seconds) >= 0
    ensures Hours(seconds) > 0 ==>
              FormatTimestamp(seconds)
              == ZeroPad(Hours(seconds), 2) + ":" + ZeroPad(MinutesOfHour(seconds), 2) + ":"
                 + ZeroPad(SecondsOfMinute(seconds), 2)
    ensures Hours(seconds) == 0 ==>
              FormatTimestamp(seconds) == ZeroPad(MinutesOfHour(seconds), 2) + ":" + ZeroPad(SecondsOfMinute(seconds), 2)
  {
    PadNumberNonNegative(Hours(seconds), 2);
    PadNumberNonNegative(MinutesOfHour(seconds), 2);
    PadNumberNonNegative(SecondsOfMinute(seconds), 2);
  }

  /** Two-digit padding of in-range minutes and seconds, and the hours never truncated. */
  lemma PaddedClock(h: int, m: int, sec: int)
    requires h >= 0 && 0 <= m < 60 && 0 <= sec < 60
    ensures |ZeroPad(h, 2)| >= 2 && |ZeroPad(m, 2)| == 2 && |ZeroPad(sec, 2)| == 2
    ensures DigitsValue(ZeroPad(h, 2)) * 3600 + DigitsValue(ZeroPad(m, 2)) * 60 + DigitsValue(ZeroPad(sec, 2))
            == h * 3600 + m * 60 + sec
    ensures h == 0 ==> DigitsValue(ZeroPad(m, 2)) * 60 + DigitsValue(ZeroPad(sec, 2)) == h * 3600 + m * 60 + sec
  {
    assert Pow10(2) == 100;
  }

  /**
   * For a non-negative time, the label shows the hours exactly when the time
   * is at least an hour (then with at least two digits, never truncated),
   * minutes and seconds as two digits in 00..59, and reads back as the whole
   * seconds `floor(seconds)`.
   */
  lemma FormatTimestampRoundTrip(seconds: real)
    requires seconds >= 0.0
    ensures 0 <= MinutesOfHour(seconds) < 60 && 0 <= SecondsOfMinute(seconds) < 60
    ensures Hours(seconds) > 0 <==> seconds >= 3600.0
    ensures Hours(seconds) > 0 <==> |FormatTimestamp(seconds)| >= 8
    ensures Hours(seconds) == 0 <==> |FormatTimestamp(seconds)| == 5
    ensures ParseTimestamp(FormatTimestamp(seconds)) == Some(Floor(seconds))
  {
    ClockFields(seconds);
    TimestampText(seconds);
    var h, m, sec := Hours(seconds), MinutesOfHour(seconds), SecondsOfMinute(seconds);
    PaddedClock(h, m, sec);
    if h > 0 {
      ReadLong(ZeroPad(h, 2), ZeroPad(m, 2), ZeroPad(sec, 2), Floor(seconds));
    } else {
      ReadShort(FormatTimestamp(seconds), ZeroPad(m, 2), ZeroPad(sec, 2), Floor(seconds));
    }
  }

  /** Just under a minute shows no hours and floors the seconds. */
  lemma FormatTimestampShortExample()
    ensures FormatTimestamp(59.9) == "00:59"
  {
    assert Hours(59.9) == 0 && MinutesOfHour(59.9) == 0 && SecondsOfMinute(59.9) == 59;
    assert PadNumber(0, 2) == "00" && PadNumber(59, 2) == "59";
  }

  /** An hour or more shows the hours first, padded to two digits. */
  lemma FormatTimestampLongExample()
    ensures FormatTimestamp(3725.0) == "01:02:05"
  {
    assert Hours(3725.0) == 1 && MinutesOfHour(3725.0) == 2 && SecondsOfMinute(3725.0) == 5;
    assert PadNumber(1, 2) == "01" && PadNumber(2, 2) == "02" && PadNumber(5, 2) == "05";
  }

  /** A hundred hours keep all three hour digits. */
  lemma FormatTimestampHundredHours()
    ensures FormatTimestamp(360000.0) == "100:00:00"
  {
    assert Hours(360000.0) == 100 && MinutesOfHour(360000.0) == 0 && SecondsOfMinute(360000.0) == 0;
    assert PadNumber(0, 2) == "00";
    assert NatToString(10) == "10" && NatToString(100) == "100";
    assert PadNumber(100, 2) == "100";
  }
}
