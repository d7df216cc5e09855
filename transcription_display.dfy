/**
 * components/transcription-display.tsx: the SRT export built from
 * `Date.prototype.toISOString` (section 21.4.4.36 of ECMA-262), the
 * `[start - end] text` lines shared by the copy button and the plain-text
 * download, the download's file name and the right-to-left languages.
 */
module TranscriptionDisplay {
  import opened Wrappers
  import opened Strings
  import opened RealMath
  import opened Whisper
  import Timestamps
  import FileProcessing

  // ------------------------------------------------------------ direction

  const RtlLanguages: seq<string> := ["he", "ar"]

  /** `RTL_LANGUAGES.includes(language)`. */
  predicate IsRtl(language: string) {
    language in RtlLanguages
  }

  /** The `dir` attribute of the component. */
  function TextDirection(language: string): (d: string)
    ensures d == "rtl" <==> language == "he" || language == "ar"
    ensures d == "rtl" || d == "ltr"
  {
    if IsRtl(language) then "rtl" else "ltr"
  }

  // ------------------------------------------------------- dates and times

  const MsPerDay: int := 86400000

  /** The largest magnitude of a time value (section 21.4.1.1 of ECMA-262). */
  const MaxTimeValue: int := 8640000000000000

  /** 0000-01-01T00:00:00.000Z and 10000-01-01T00:00:00.000Z, as time values. */
  const FirstFourDigitYear: int := -62167219200000
  const FirstFiveDigitYear: int := 253402300800000

  /**
   * `new Date(seconds * 1000)`: TimeClip makes a magnitude beyond
   * `MaxTimeValue` an invalid date (None) and truncates the rest toward zero
   * to whole milliseconds.
   */
  function TimeValue(seconds: real): (t: Option<int>)
    ensures t.Some? ==> -MaxTimeValue <= t.value <= MaxTimeValue
  {
    var ms := seconds * 1000.0;
    if ms > MaxTimeValue as real || ms < -MaxTimeValue as real then None else Some(Trunc(ms))
  }

  /** The time of day of a time value, as ECMA-262 computes its fields. */
  datatype Clock = Clock(hours: nat, minutes: nat, seconds: nat, millis: nat)

  /** HourFromTime, MinFromTime, SecFromTime and msFromTime, with floor division. */
  function DayClock(t: int): Clock {
    Clock((t / 3600000) % 24, (t / 60000) % 60, (t / 1000) % 60, t % 1000)
  }

  /** Characters 11 to 22 of the ISO string: `HH:mm:ss.sss`. */
  function IsoClock(c: Clock): string {
    ZeroPad(c.hours, 2) + ":" + ZeroPad(c.minutes, 2) + ":" + ZeroPad(c.seconds, 2) + "." + ZeroPad(c.millis, 3)
  }

  /** `s.replace(from, to)` with a one-character pattern: only the first occurrence changes. */
  function ReplaceFirst(s: string, from: char, to: char): (r: string)
    ensures |r| == |s|
  {
    if |s| == 0 then ""
    else if s[0] == from then [to] + s[1..]
    else [s[0]] + ReplaceFirst(s[1..], from, to)
  }

  /** `toISOString().slice(11, 23).replace(".", ",")` of a time value of a four-digit year. */
  function SrtClock(t: int): string {
    ReplaceFirst(IsoClock(DayClock(t)), '.', ',')
  }

  /** `toISOString` throws on an invalid date. */
  predicate InvalidTime(seconds: real) {
    TimeValue(seconds).None?
  }

  /** The date falls in the years 0000 to 9999, which the ISO string writes with four digits. */
  predicate FourDigitYear(seconds: real) {
    TimeValue(seconds).Some? && FirstFourDigitYear <= TimeValue(seconds).value < FirstFiveDigitYear
  }

  /**
   * The time text of one SRT timestamp: the clock of a four-digit year with
   * its first "." turned into ",", an invalid date (on which `toISOString`
   * throws a RangeError), or a date whose year needs the six-digit form.
   */
  datatype IsoTime = TimeOfDay(text: string) | InvalidDate | ExpandedYear

  function SrtTimestamp(seconds: real): (r: IsoTime)
    ensures r == InvalidDate <==> InvalidTime(seconds)
    ensures r.TimeOfDay? <==> FourDigitYear(seconds)
  {
    if InvalidTime(seconds) then InvalidDate
    else if !FourDigitYear(seconds) then ExpandedYear
    else TimeOfDay(SrtClock(TimeValue(seconds).value))
  }

  function ShownTime(seconds: real): string {
    if FourDigitYear(seconds) then SrtClock(TimeValue(seconds).value) else ""
  }

  // ------------------------------------------------------------------ SRT

  /** The entries of the segments, numbered from 1 in order. */
  function SrtEntries(segments: seq<WhisperSegment>): (entries: seq<string>)
    ensures |entries| == |segments|
    decreases |segments|
  {
    if |segments| == 0 then []
    else
      var n := |segments| - 1;
      SrtEntries(segments[..n]) + [FileProcessing.SrtEntry(n + 1, ShownTime(segments[n].start), ShownTime(segments[n].end), segments[n].text)]
  }

  /**
   * What `formatSRT` produces: the text, the RangeError thrown when a time
   * is an invalid date, or a six-digit year, whose text this model does not
   * compute.
   */
  datatype SrtOutcome = Rendered(text: string) | RangeError | Unmodelled

  predicate Throws(segment: WhisperSegment) {
    InvalidTime(segment.start) || InvalidTime(segment.end)
  }

  predicate Expanded(segment: WhisperSegment) {
    !Throws(segment) && !(FourDigitYear(segment.start) && FourDigitYear(segment.end))
  }

  predicate AnyThrows(segments: seq<WhisperSegment>) {
    exists i | 0 <= i < |segments| :: Throws(segments[i])
  }

  predicate AnyExpanded(segments: seq<WhisperSegment>) {
    exists i | 0 <= i < |segments| :: Expanded(segments[i])
  }

  /** `formatSRT`: entries numbered by position, joined by "\n". */
  function FormatSRT(segments: seq<WhisperSegment>): (r: SrtOutcome)
    ensures segments == [] ==> r == Rendered("")
    ensures r == RangeError <==> exists i | 0 <= i < |segments| :: Throws(segments[i])
  {
    if AnyThrows(segments) then RangeError
    else if AnyExpanded(segments) then Unmodelled
    else Rendered(Join(SrtEntries(segments), "\n"))
  }

  /** Every time of a segment is a time of day of a four-digit year. */
  predicate Shown(segment: WhisperSegment) {
    FourDigitYear(segment.start) && FourDigitYear(segment.end)
  }

  /** The text is rendered exactly when every time of every segment is shown. */
  lemma RenderedWhenAllShown(segments: seq<WhisperSegment>)
    ensures FormatSRT(segments).Rendered? <==> forall i | 0 <= i < |segments| :: Shown(segments[i])
  {
    if forall i | 0 <= i < |segments| :: Shown(segments[i]) {
      assert !exists i | 0 <= i < |segments| :: Throws(segments[i]) || Expanded(segments[i]);
    } else {
      var i :| 0 <= i < |segments| && !Shown(segments[i]);
      assert Throws(segments[i]) || Expanded(segments[i]);
    }
  }

  /**
   * The SRT text grows entry by entry: a segment appended after `n` others
   * adds "\n" and the entry numbered `n + 1`.
   */
  lemma FormatSRTAppend(segments: seq<WhisperSegment>, next: WhisperSegment)
    requires FormatSRT(segments).Rendered? && Shown(next)
    ensures FormatSRT(segments + [next]).Rendered?
    ensures var entry := FileProcessing.SrtEntry(|segments| + 1, ShownTime(next.start), ShownTime(next.end), next.text);
            FormatSRT(segments + [next]).text
            == if segments == [] then entry else FormatSRT(segments).text + "\n" + entry
  {
    var all := segments + [next];
    RenderedWhenAllShown(segments);
    assert forall i | 0 <= i < |all| :: Shown(all[i]) by {
      forall i | 0 <= i < |all| ensures Shown(all[i]) {
        if i < |segments| { assert all[i] == segments[i]; }
      }
    }
    RenderedWhenAllShown(all);
    RenderedText(all);
    EntriesAppend(segments, next);
    var entry := FileProcessing.SrtEntry(|segments| + 1, ShownTime(next.start), ShownTime(next.end), next.text);
    if segments == [] {
      assert SrtEntries(all) == [entry];
    } else {
      RenderedText(segments);
      JoinAppend(SrtEntries(segments), entry, "\n");
    }
  }

  lemma RenderedText(segments: seq<WhisperSegment>)
    requires FormatSRT(segments).Rendered?
    ensures FormatSRT(segments).text == Join(SrtEntries(segments), "\n")
  {
  }

  lemma EntriesAppend(segments: seq<WhisperSegment>, next: WhisperSegment)
    ensures SrtEntries(segments + [next])
            == SrtEntries(segments) + [FileProcessing.SrtEntry(|segments| + 1, ShownTime(next.start), ShownTime(next.end), next.text)]
  {
    assert (segments + [next])[..|segments|] == segments;
  }

  /** The numbering ignores the ids: segments that differ only in id give the same SRT. */
  lemma FormatSRTIgnoresIds(a: seq<WhisperSegment>, b: seq<WhisperSegment>)
    requires |a| == |b|
    requires forall i | 0 <= i < |a| :: a[i].start == b[i].start && a[i].end == b[i].end && a[i].text == b[i].text
    ensures FormatSRT(a) == FormatSRT(b)
  {
    FlagsIgnoreIds(a, b);
    EntriesIgnoreIds(a, b);
    FormatSRTDetermined(a, b);
  }

  lemma FlagsIgnoreIds(a: seq<WhisperSegment>, b: seq<WhisperSegment>)
    requires |a| == |b|
    requires forall i | 0 <= i < |a| :: a[i].start == b[i].start && a[i].end == b[i].end && a[i].text == b[i].text
    ensures AnyThrows(a) == AnyThrows(b) && AnyExpanded(a) == AnyExpanded(b)
  {
    assert forall i | 0 <= i < |a| :: Throws(a[i]) == Throws(b[i]) && Expanded(a[i]) == Expanded(b[i]);
  }

  lemma FormatSRTDetermined(a: seq<WhisperSegment>, b: seq<WhisperSegment>)
    requires AnyThrows(a) == AnyThrows(b) && AnyExpanded(a) == AnyExpanded(b)
    requires SrtEntries(a) == SrtEntries(b)
    ensures FormatSRT(a) == FormatSRT(b)
  {
  }

  lemma {:induction false} EntriesIgnoreIds(a: seq<WhisperSegment>, b: seq<WhisperSegment>)
    requires |a| == |b|
    requires forall i | 0 <= i < |a| :: a[i].start == b[i].start && a[i].end == b[i].end && a[i].text == b[i].text
    ensures SrtEntries(a) == SrtEntries(b)
    decreases |a|
  {
    if |a| > 0 {
      EntriesIgnoreIds(a[..|a| - 1], b[..|b| - 1]);
    }
  }

  // ---------------------------------------------------------- clock facts

  lemma DivModUnique(x: int, d: int, q: int, r: int)
    requires d > 0 && x == q * d + r && 0 <= r < d
    ensures x / d == q && x % d == r
  {
    var q0, r0 := x / d, x % d;
    assert (q - q0) * d == r0 - r;
    if q > q0 {
      assert (q - q0) * d >= d by { MulAtLeast(q - q0, d); }
    } else if q < q0 {
      assert (q0 - q) * d >= d by { MulAtLeast(q0 - q, d); }
    }
  }

  lemma MulAtLeast(k: int, d: int)
    requires k >= 1 && d > 0
    ensures k * d >= d
  {
  }

  /**
   * The clock of a time value is in range and spells out its milliseconds
   * since midnight UTC, counted with the floor modulo, so that times before
   * 1970 run backwards from midnight.
   */
  lemma DayClockFields(t: int)
    ensures var c := DayClock(t);
            0 <= c.hours < 24 && 0 <= c.minutes < 60 && 0 <= c.seconds < 60 && 0 <= c.millis < 1000
            && c.hours * 3600000 + c.minutes * 60000 + c.seconds * 1000 + c.millis == t % MsPerDay
  {
    var c := DayClock(t);
    var day := t % MsPerDay;
    var n := t / MsPerDay;
    assert t == n * MsPerDay + day;
    var ss := day / 1000;
    var mm := ss / 60;
    var hh := mm / 60;
    assert day == ss * 1000 + c.millis by { DivModUnique(t, 1000, n * 86400 + ss, day % 1000); }
    DivModUnique(t, 1000, n * 86400 + ss, day % 1000);
    assert t / 1000 == n * 86400 + ss;
    DivModUnique(t / 1000, 60, n * 1440 + mm, ss % 60);
    assert c.seconds == ss % 60;
    DivModUnique(t, 60000, n * 1440 + mm, (ss % 60) * 1000 + c.millis);
    DivModUnique(t / 60000, 60, n * 24 + hh, mm % 60);
    assert c.minutes == mm % 60;
    DivModUnique(t, 3600000, n * 24 + hh, (mm % 60) * 60000 + (ss % 60) * 1000 + c.millis);
    assert hh < 24;
    DivModUnique(t / 3600000, 24, n, hh);
  }

  /** In-range fields that spell out a time value's milliseconds since midnight are its clock. */
  lemma ClockOfFields(t: int, c: Clock)
    requires 0 <= c.hours < 24 && 0 <= c.minutes < 60 && 0 <= c.seconds < 60 && 0 <= c.millis < 1000
    requires c.hours * 3600000 + c.minutes * 60000 + c.seconds * 1000 + c.millis == t % MsPerDay
    ensures DayClock(t) == c
  {
    var n := t / MsPerDay;
    DivModUnique(t, 1000, n * 86400 + c.hours * 3600 + c.minutes * 60 + c.seconds, c.millis);
    DivModUnique(t / 1000, 60, n * 1440 + c.hours * 60 + c.minutes, c.seconds);
    DivModUnique(t, 60000, n * 1440 + c.hours * 60 + c.minutes, c.seconds * 1000 + c.millis);
    DivModUnique(t / 60000, 60, n * 24 + c.hours, c.minutes);
    DivModUnique(t, 3600000, n * 24 + c.hours, c.minutes * 60000 + c.seconds * 1000 + c.millis);
    DivModUnique(t / 3600000, 24, n, c.hours);
  }

  /** The clock repeats every day: hours wrap modulo 24. */
  lemma DayClockWraps(t: int)
    ensures DayClock(t + MsPerDay) == DayClock(t)
  {
    DayClockFields(t);
    DivModUnique(t + MsPerDay, MsPerDay, t / MsPerDay + 1, t % MsPerDay);
    ClockOfFields(t + MsPerDay, DayClock(t));
  }

  /** Half a second before the epoch is 23:59:59.500 of the day before. */
  lemma ClockBeforeEpoch()
    ensures DayClock(-500) == Clock(23, 59, 59, 500)
  {
    DivModUnique(-500, MsPerDay, -1, 86399500);
    ClockOfFields(-500, Clock(23, 59, 59, 500));
  }

  /** Replacing the first "." skips a prefix that holds none. */
  lemma {:induction false} ReplaceFirstSkips(a: string, b: string, from: char, to: char)
    requires from !in a
    ensures ReplaceFirst(a + b, from, to) == a + ReplaceFirst(b, from, to)
  {
    if |a| > 0 {
      assert a[0] in a && a[0] != from;
      assert (a + b)[0] == a[0] && (a + b)[1..] == a[1..] + b;
      ReplaceFirstSkips(a[1..], b, from, to);
      assert [a[0]] + (a[1..] + ReplaceFirst(b, from, to)) == a + ReplaceFirst(b, from, to);
    } else {
      assert a + b == b;
    }
  }

  lemma NoDot(s: string)
    requires AllDigits(s)
    ensures '.' !in s
  {
    assert forall i | 0 <= i < |s| :: s[i] != '.';
  }

  /** With "." turned into ",", the ISO clock is `HH:MM:SS,mmm`. */
  lemma SrtClockText(c: Clock)
    ensures ReplaceFirst(IsoClock(c), '.', ',')
            == ZeroPad(c.hours, 2) + ":" + ZeroPad(c.minutes, 2) + ":" + ZeroPad(c.seconds, 2) + "," + ZeroPad(c.millis, 3)
  {
    var h, m, s := ZeroPad(c.hours, 2), ZeroPad(c.minutes, 2), ZeroPad(c.seconds, 2);
    NoDot(h);
    NoDot(m);
    NoDot(s);
    SkipClock(h, m, s, ZeroPad(c.millis, 3));
  }

  lemma SkipClock(h: string, m: string, s: string, ms: string)
    requires '.' !in h && '.' !in m && '.' !in s
    ensures ReplaceFirst(h + ":" + m + ":" + s + "." + ms, '.', ',') == h + ":" + m + ":" + s + "," + ms
  {
    var a := h + ":" + m + ":" + s;
    assert '.' !in a;
    assert h + ":" + m + ":" + s + "." + ms == a + ("." + ms);
    ReplaceFirstSkips(a, "." + ms, '.', ',');
    assert ReplaceFirst("." + ms, '.', ',') == "," + ms;
  }

  /**
   * Within the first day, the SRT time of this component is the `formatTime`
   * text of the other SRT writer.
   */
  lemma SrtTimestampWithinDay(seconds: real)
    requires 0.0 <= seconds < 86400.0
    ensures SrtTimestamp(seconds) == TimeOfDay(FileProcessing.FormatTime(seconds))
  {
    var t := Floor(seconds * 1000.0);
    assert TimeValue(seconds) == Some(t);
    FileProcessing.FieldsOfTime(seconds);
    var c := Clock(Hours(seconds), MinutesOfHour(seconds), SecondsOfMinute(seconds), MillisOfSecond(seconds));
    assert c.hours < 24;
    DivModUnique(t, MsPerDay, 0, t);
    ClockOfFields(t, c);
    SrtClockText(c);
    FileProcessing.FormatTimeText(seconds);
  }

  /** A time a day later shows the same SRT time. */
  lemma SrtTimestampWraps(seconds: real)
    requires 0.0 <= seconds && (seconds + 86400.0) * 1000.0 < FirstFiveDigitYear as real
    ensures SrtTimestamp(seconds + 86400.0) == SrtTimestamp(seconds)
  {
    var later := seconds + 86400.0;
    var t := Floor(seconds * 1000.0);
    TimeValueShift(seconds, later);
    ShowsClock(later, t + MsPerDay);
    ShowsClock(seconds, t);
    DayClockWraps(t);
  }

  lemma TimeValueShift(seconds: real, later: real)
    requires 0.0 <= seconds && later == seconds + 86400.0 && later * 1000.0 < FirstFiveDigitYear as real
    ensures TimeValue(seconds) == Some(Floor(seconds * 1000.0))
    ensures TimeValue(later) == Some(Floor(seconds * 1000.0) + MsPerDay)
    ensures 0 <= Floor(seconds * 1000.0) && Floor(seconds * 1000.0) + MsPerDay < FirstFiveDigitYear
  {
    var x := seconds * 1000.0;
    var y := later * 1000.0;
    assert y == x + MsPerDay as real;
    FloorShift(x, MsPerDay);
  }

  lemma ShowsClock(seconds: real, t: int)
    requires TimeValue(seconds) == Some(t) && FirstFourDigitYear <= t < FirstFiveDigitYear
    ensures SrtTimestamp(seconds) == TimeOfDay(SrtClock(t))
  {
  }

  lemma FloorShift(x: real, k: int)
    ensures Floor(x + k as real) == Floor(x) + k
  {
    var f := Floor(x);
    assert (f + k) as real <= x + k as real < (f + k) as real + 1.0;
  }

  /**
   * The two SRT writers agree on recordings shorter than a day whose
   * segment ids are their positions: `formatSRT` of the segments is
   * `createSRTContent` of the same segments.
   */
  lemma WritersAgree(ws: seq<WhisperSegment>, ts: seq<TranscriptionSegment>, text: string, language: Option<string>)
    requires |ws| == |ts|
    requires forall i | 0 <= i < |ts| :: ts[i].id == i + 1 && ts[i].start == ws[i].start
                                          && ts[i].end == ws[i].end && ts[i].text == ws[i].text
    requires forall i | 0 <= i < |ws| :: 0.0 <= ws[i].start < 86400.0 && 0.0 <= ws[i].end < 86400.0
    ensures FormatSRT(ws) == Rendered(FileProcessing.CreateSRTContent(TranscriptionResponse(text, Some(ts), language)))
  {
    AllShownWithinDay(ws);
    RenderedWhenAllShown(ws);
    RenderedText(ws);
    EntriesAreBlocks(ws, ts);
  }

  lemma AllShownWithinDay(ws: seq<WhisperSegment>)
    requires forall i | 0 <= i < |ws| :: 0.0 <= ws[i].start < 86400.0 && 0.0 <= ws[i].end < 86400.0
    ensures forall i | 0 <= i < |ws| :: Shown(ws[i])
  {
    forall i | 0 <= i < |ws| ensures Shown(ws[i]) {
      WithinDayShown(ws[i].start);
      WithinDayShown(ws[i].end);
    }
  }

  lemma {:induction false} EntriesAreBlocks(ws: seq<WhisperSegment>, ts: seq<TranscriptionSegment>)
    requires |ws| == |ts|
    requires forall i | 0 <= i < |ts| :: ts[i].id == i + 1 && ts[i].start == ws[i].start
                                          && ts[i].end == ws[i].end && ts[i].text == ws[i].text
    requires forall i | 0 <= i < |ws| :: 0.0 <= ws[i].start < 86400.0 && 0.0 <= ws[i].end < 86400.0
    ensures SrtEntries(ws) == FileProcessing.SrtBlocks(ts)
    decreases |ws|
  {
    if |ws| > 0 {
      var n := |ws| - 1;
      assert forall i | 0 <= i < n :: ws[..n][i] == ws[i] && ts[..n][i] == ts[i];
      EntriesAreBlocks(ws[..n], ts[..n]);
      ShownWithinDay(ws[n].start);
      ShownWithinDay(ws[n].end);
      LastEntryStep(ws, ts);
    }
  }

  lemma LastEntryStep(ws: seq<WhisperSegment>, ts: seq<TranscriptionSegment>)
    requires |ws| == |ts| > 0
    requires SrtEntries(ws[..|ws| - 1]) == FileProcessing.SrtBlocks(ts[..|ts| - 1])
    requires var n := |ws| - 1;
             ts[n].id == n + 1 && ts[n].text == ws[n].text
             && ShownTime(ws[n].start) == FileProcessing.FormatTime(ts[n].start)
             && ShownTime(ws[n].end) == FileProcessing.FormatTime(ts[n].end)
    ensures SrtEntries(ws) == FileProcessing.SrtBlocks(ts)
  {
    var n := |ws| - 1;
    SplitLast(ts);
    FileProcessing.SrtBlocksAppend(ts[..n], ts[n]);
  }

  /** Every time within the first day is a time of day of a four-digit year. */
  lemma WithinDayShown(seconds: real)
    requires 0.0 <= seconds < 86400.0
    ensures FourDigitYear(seconds)
  {
    var t := Floor(seconds * 1000.0);
    assert TimeValue(seconds) == Some(t);
  }

  /** Within the first day both writers show a time as the same text. */
  lemma ShownWithinDay(seconds: real)
    requires 0.0 <= seconds < 86400.0
    ensures ShownTime(seconds) == FileProcessing.FormatTime(seconds)
  {
    SrtTimestampWithinDay(seconds);
  }

  // ----------------------------------------------------- copy and download

  /** One line of the copied text: `[start - end] text`. */
  function TimedLine(segment: WhisperSegment): string {
    "[" + Timestamps.FormatTimestamp(segment.start) + " - " + Timestamps.FormatTimestamp(segment.end) + "] " + segment.text
  }

  function TimedLines(segments: seq<WhisperSegment>): (lines: seq<string>)
    ensures |lines| == |segments|
  {
    MapStrings(TimedLine, segments)
  }

  /** The text `handleCopy` writes to the clipboard. */
  function CopyText(segments: seq<WhisperSegment>): (r: string)
    ensures segments == [] ==> r == ""
  {
    Join(TimedLines(segments), "\n")
  }

  /** The copied text grows line by line. */
  lemma CopyTextAppend(segments: seq<WhisperSegment>, next: WhisperSegment)
    ensures CopyText([next]) == TimedLine(next)
    ensures segments != [] ==> CopyText(segments + [next]) == CopyText(segments) + "\n" + TimedLine(next)
  {
    if segments != [] {
      MapStringsAppend(TimedLine, segments, next);
      JoinAppend(TimedLines(segments), TimedLine(next), "\n");
    }
  }

  /**
   * A line shows the segment's text after the time range, and for a
   * non-negative start the first time reads back as the whole seconds of
   * the start.
   */
  lemma TimedLineReadsBack(segment: WhisperSegment)
    requires segment.start >= 0.0
    ensures var line := TimedLine(segment);
            var shown := Timestamps.FormatTimestamp(segment.start);
            |line| > |shown| + 1 && line[0] == '[' && line[1..|shown| + 1] == shown
            && Timestamps.ParseTimestamp(line[1..|shown| + 1]) == Some(Floor(segment.start))
            && line[|line| - |segment.text|..] == segment.text
  {
    var shown := Timestamps.FormatTimestamp(segment.start);
    LineSlices(shown, Timestamps.FormatTimestamp(segment.end), segment.text);
    Timestamps.FormatTimestampRoundTrip(segment.start);
  }

  lemma LineSlices(a: string, b: string, text: string)
    ensures var line := "[" + a + " - " + b + "] " + text;
            |line| > |a| + 1 && line[0] == '[' && line[1..|a| + 1] == a && line[|line| - |text|..] == text
  {
    var front := "[" + a;
    var line := front + (" - " + b + "] " + text);
    assert "[" + a + " - " + b + "] " + text == line;
    assert line[..|front|] == front && front[1..] == a;
    assert line[1..|a| + 1] == front[1..];
  }

  datatype Format = Txt | Srt

  /** What `handleDownload` hands to `saveAs`, or the RangeError or unmodelled year that stops it. */
  datatype Download = Saved(content: string, filename: string) | Thrown | NotModelled

  /** A line of the plain-text download, written out by `handleDownload` itself. */
  function DownloadLine(segment: WhisperSegment): string {
    "[" + (Timestamps.FormatTimestamp(segment.start)
           + (" - " + (Timestamps.FormatTimestamp(segment.end) + ("] " + segment.text))))
  }

  /** The plain-text content `handleDownload` builds: its lines joined by "\n". */
  function DownloadText(segments: seq<WhisperSegment>): string {
    Join(MapStrings(DownloadLine, segments), "\n")
  }

  /** The plain-text download holds exactly the text `handleCopy` copies. */
  lemma DownloadTextIsCopyText(segments: seq<WhisperSegment>)
    ensures DownloadText(segments) == CopyText(segments)
  {
    forall i | 0 <= i < |segments|
      ensures DownloadLine(segments[i]) == TimedLine(segments[i])
    {
      DownloadLineIsTimedLine(segments[i]);
    }
    MapStringsAgree(DownloadLine, TimedLine, segments);
  }

  lemma DownloadLineIsTimedLine(segment: WhisperSegment)
    ensures DownloadLine(segment) == TimedLine(segment)
  {
    TemplateRegrouped(Timestamps.FormatTimestamp(segment.start), Timestamps.FormatTimestamp(segment.end), segment.text);
  }

  lemma TemplateRegrouped(first: string, last: string, text: string)
    ensures "[" + (first + (" - " + (last + ("] " + text)))) == "[" + first + " - " + last + "] " + text
  {
  }

  function HandleDownload(format: Format, transcription: WhisperResponse): Download {
    match format
    case Txt => Saved(DownloadText(transcription.segments), "transcription.txt")
    case Srt =>
      match FormatSRT(transcription.segments)
      case Rendered(content) => Saved(content, "transcription.srt")
      case RangeError => Thrown
      case Unmodelled => NotModelled
  }

  /**
   * The plain-text download is the copied text, always saved as
   * "transcription.txt"; the SRT download, when saved, is `formatSRT`'s text
   * as "transcription.srt", and an invalid time stops it.
   */
  lemma DownloadContents(transcription: WhisperResponse)
    ensures HandleDownload(Txt, transcription) == Saved(CopyText(transcription.segments), "transcription.txt")
    ensures HandleDownload(Srt, transcription).Saved? <==> FormatSRT(transcription.segments).Rendered?
    ensures HandleDownload(Srt, transcription).Saved? ==>
              HandleDownload(Srt, transcription)
              == Saved(FormatSRT(transcription.segments).text, "transcription.srt")
    ensures HandleDownload(Srt, transcription) == Thrown
            <==> exists i | 0 <= i < |transcription.segments| :: Throws(transcription.segments[i])
    ensures forall f: Format :: HandleDownload(f, transcription).Saved? ==>
              (HandleDownload(f, transcription).filename == "transcription.txt" <==> f == Txt)
  {
    DownloadTextIsCopyText(transcription.segments);
  }
}
