/**
 * lib/utils/file-processing.ts: the upload validator and the SRT writer
 * that numbers its blocks by segment id, with its `formatTime` helper.
 */
module FileProcessing {
  import opened Wrappers
  import opened Strings
  import opened RealMath
  import opened Whisper

  /** The upload size cap: 100 MB. */
  const MaxUploadSize: nat := 100 * 1024 * 1024

  /** The accepted MIME types, in the order the validator lists them. */
  const AllowedTypes: seq<string> := ["audio/mpeg", "audio/wav", "audio/ogg", "video/mp4", "video/webm"]

  const UnsupportedTypeMessage: string := "File type not supported. Please upload an audio or video file."
  const TooLargeMessage: string := "File size too large. Maximum size is 100MB."

  /**
   * `validateFile`: the message to show, or None (`null`) when the file is
   * accepted. The type is checked before the size.
   */
  function ValidateFile(file: MediaFile): (r: Option<string>)
    ensures file.mimeType !in AllowedTypes ==> r == Some(UnsupportedTypeMessage)
    ensures file.mimeType in AllowedTypes && file.size > 100 * 1024 * 1024 ==> r == Some(TooLargeMessage)
    ensures r == None <==> file.mimeType in AllowedTypes && file.size <= 100 * 1024 * 1024
  {
    if file.mimeType !in AllowedTypes then Some(UnsupportedTypeMessage)
    else if file.size > MaxUploadSize then Some(TooLargeMessage)
    else None
  }

  /** The inner `formatTime` of `createSRTContent`: `HH:MM:SS,mmm`. */
  function FormatTime(time: real): string {
    PadNumber(Hours(time), 2) + ":" + PadNumber(MinutesOfHour(time), 2) + ":"
    + PadNumber(SecondsOfMinute(time), 2) + "," + PadNumber(MillisOfSecond(time), 3)
  }

  /** The milliseconds that hour, minute, second and millisecond digit fields stand for. */
  function FieldsMillis(h: string, m: string, sec: string, ms: string): int
    requires AllDigits(h) && AllDigits(m) && AllDigits(sec) && AllDigits(ms)
  {
    DigitsValue(h) * 3600000 + DigitsValue(m) * 60000 + DigitsValue(sec) * 1000 + DigitsValue(ms)
  }

  /**
   * Reads an SRT time `H…H:MM:SS,mmm` (at least one hour digit) back into
   * milliseconds.
   */
  function ParseSrtTime(s: string): Option<int> {
    if |s| >= 11 && s[|s| - 10] == ':' && s[|s| - 7] == ':' && s[|s| - 4] == ','
       && AllDigits(s[..|s| - 10]) && AllDigits(s[|s| - 9..|s| - 7])
       && AllDigits(s[|s| - 6..|s| - 4]) && AllDigits(s[|s| - 3..])
    then Some(FieldsMillis(s[..|s| - 10], s[|s| - 9..|s| - 7], s[|s| - 6..|s| - 4], s[|s| - 3..]))
    else None
  }

  /** Where the four fields of `h:mm:ss,mmm` sit. */
  lemma SrtSlices(h: string, m: string, sec: string, ms: string)
    requires |h| >= 1 && |m| == 2 && |sec| == 2 && |ms| == 3
    ensures var s := h + ":" + m + ":" + sec + "," + ms;
            |s| == |h| + 10 && s[..|s| - 10] == h && s[|s| - 9..|s| - 7] == m
            && s[|s| - 6..|s| - 4] == sec && s[|s| - 3..] == ms
            && s[|s| - 10] == ':' && s[|s| - 7] == ':' && s[|s| - 4] == ','
  {
    var a := h + ":";
    var b := a + m;
    var c := b + ":";
    var d := c + sec;
    var e := d + ",";
    var s := e + ms;
    assert s[..|e|] == e && s[|e|..] == ms;
    assert e[..|d|] == d && e[|d|] == ',';
    assert d[..|c|] == c && d[|c|..] == sec;
    assert c[..|b|] == b && c[|b|] == ':';
    assert b[..|a|] == a && b[|a|..] == m;
    assert a[..|h|] == h && a[|h|] == ':';
  }

  /** A string laid out as `h:mm:ss,mmm` from digit fields reads back as their milliseconds. */
  lemma SrtFields(text: string, h: string, m: string, sec: string, ms: string)
    requires AllDigits(h) && AllDigits(m) && AllDigits(sec) && AllDigits(ms)
    requires |h| >= 1 && |m| == 2 && |sec| == 2 && |ms| == 3
    requires text == h + ":" + m + ":" + sec + "," + ms
    ensures ParseSrtTime(text) == Some(FieldsMillis(h, m, sec, ms))
  {
    SrtSlices(h, m, sec, ms);
  }

  /** Zero-padded in-range fields, as digit strings, stand for their milliseconds. */
  lemma PaddedFields(h: int, m: int, sec: int, ms: int)
    requires h >= 0 && 0 <= m < 60 && 0 <= sec < 60 && 0 <= ms < 1000
    ensures |ZeroPad(h, 2)| >= 2 && |ZeroPad(m, 2)| == 2 && |ZeroPad(sec, 2)| == 2 && |ZeroPad(ms, 3)| == 3
    ensures FieldsMillis(ZeroPad(h, 2), ZeroPad(m, 2), ZeroPad(sec, 2), ZeroPad(ms, 3))
            == h * 3600000 + m * 60000 + sec * 1000 + ms
  {
    assert Pow10(2) == 100 && Pow10(3) == 1000;
  }

  /** For non-negative fields, `formatTime` is the zero-padded fields. */
  lemma FormatTimeText(time: real)
    requires Hours(time) >= 0 && MinutesOfHour(time) >= 0 && SecondsOfMinute(time) >= 0
    requires MillisOfSecond(time) >= 0
    ensures FormatTime(time)
            == ZeroPad(Hours(time), 2) + ":" + ZeroPad(MinutesOfHour(time), 2) + ":"
               + ZeroPad(SecondsOfMinute(time), 2) + "," + ZeroPad(MillisOfSecond(time), 3)
  {
    PadNumberNonNegative(Hours(time), 2);
    PadNumberNonNegative(MinutesOfHour(time), 2);
    PadNumberNonNegative(SecondsOfMinute(time), 2);
    PadNumberNonNegative(MillisOfSecond(time), 3);
  }

  /**
   * For a non-negative time, `formatTime` writes the hours with at least two
   * digits (never truncated), minutes and seconds as two digits in 00..59 and
   * milliseconds as three digits in 000..999, and the fields read back as
   * `floor(time * 1000)` milliseconds.
   */
  lemma FormatTimeRoundTrip(time: real)
    requires time >= 0.0
    ensures 0 <= MinutesOfHour(time) < 60 && 0 <= SecondsOfMinute(time) < 60
    ensures 0 <= MillisOfSecond(time) < 1000
    ensures FormatTime(time)
            == ZeroPad(Hours(time), 2) + ":" + ZeroPad(MinutesOfHour(time), 2) + ":"
               + ZeroPad(SecondsOfMinute(time), 2) + "," + ZeroPad(MillisOfSecond(time), 3)
    ensures |ZeroPad(Hours(time), 2)| >= 2 && DigitsValue(ZeroPad(Hours(time), 2)) == Hours(time)
    ensures ParseSrtTime(FormatTime(time)) == Some(Floor(time * 1000.0))
  {
    FieldsOfTime(time);
    FormatTimeText(time);
    PaddedFields(Hours(time), MinutesOfHour(time), SecondsOfMinute(time), MillisOfSecond(time));
    ReadBack(FormatTime(time), ZeroPad(Hours(time), 2), ZeroPad(MinutesOfHour(time), 2),
             ZeroPad(SecondsOfMinute(time), 2), ZeroPad(MillisOfSecond(time), 3), Floor(time * 1000.0));
  }

  lemma ReadBack(text: string, h: string, m: string, sec: string, ms: string, millis: int)
    requires AllDigits(h) && AllDigits(m) && AllDigits(sec) && AllDigits(ms)
    requires |h| >= 1 && |m| == 2 && |sec| == 2 && |ms| == 3
    requires text == h + ":" + m + ":" + sec + "," + ms
    requires FieldsMillis(h, m, sec, ms) == millis
    ensures ParseSrtTime(text) == Some(millis)
  {
    SrtFields(text, h, m, sec, ms);
  }

  /** The clock fields of a non-negative time, in range, add up to its milliseconds. */
  lemma FieldsOfTime(time: real)
    requires time >= 0.0
    ensures Hours(time) >= 0 && 0 <= MinutesOfHour(time) < 60 && 0 <= SecondsOfMinute(time) < 60
    ensures 0 <= MillisOfSecond(time) < 1000
    ensures Hours(time) * 3600000 + MinutesOfHour(time) * 60000 + SecondsOfMinute(time) * 1000
            + MillisOfSecond(time) == Floor(time * 1000.0)
  {
    ClockFields(time);
    MillisField(time);
    MillisTotal(Hours(time), MinutesOfHour(time), SecondsOfMinute(time), MillisOfSecond(time),
                Floor(time), Floor(time * 1000.0));
  }

  lemma MillisTotal(h: int, m: int, sec: int, ms: int, seconds: int, millis: int)
    requires h * 3600 + m * 60 + sec == seconds && seconds * 1000 + ms == millis
    ensures h * 3600000 + m * 60000 + sec * 1000 + ms == millis
  {
  }

  /** One SRT entry: its number, its time range and its text, each on its own line. */
  function SrtEntry(position: int, start: string, end: string, text: string): string {
    IntToString(position) + "\n" + start + " --> " + end + "\n" + text + "\n"
  }

  /** One SRT block: the entry numbered by the segment's id. */
  function SrtBlock(segment: TranscriptionSegment): string {
    SrtEntry(segment.id, FormatTime(segment.start), FormatTime(segment.end), segment.text)
  }

  function SrtBlocks(segments: seq<TranscriptionSegment>): (blocks: seq<string>)
    ensures |blocks| == |segments|
  {
    MapStrings(SrtBlock, segments)
  }

  /** `createSRTContent`: blocks numbered by segment id, joined by blank-line separators. */
  function CreateSRTContent(transcription: TranscriptionResponse): (r: string)
    ensures transcription.segments == None ==> r == ""
    ensures transcription.segments == Some([]) ==> r == ""
  {
    match transcription.segments
    case None => ""
    case Some(segments) => Join(SrtBlocks(segments), "\n")
  }

  /**
   * The SRT content grows block by block: one segment gives its own block,
   * and each further segment appends "\n" and its block, numbered by its own
   * id whatever its position.
   */
  lemma CreateSRTContentAppend(text: string, language: Option<string>,
                               segments: seq<TranscriptionSegment>, next: TranscriptionSegment)
    ensures CreateSRTContent(TranscriptionResponse(text, Some([next]), language)) == SrtBlock(next)
    ensures |segments| >= 1 ==>
              CreateSRTContent(TranscriptionResponse(text, Some(segments + [next]), language))
              == CreateSRTContent(TranscriptionResponse(text, Some(segments), language)) + "\n" + SrtBlock(next)
  {
    SingleBlockContent(text, language, next);
    if |segments| >= 1 {
      AppendedBlockContent(text, language, segments, next);
    }
  }

  lemma SingleBlockContent(text: string, language: Option<string>, next: TranscriptionSegment)
    ensures CreateSRTContent(TranscriptionResponse(text, Some([next]), language)) == SrtBlock(next)
  {
    MapStringsSingle(SrtBlock, next);
  }

  lemma AppendedBlockContent(text: string, language: Option<string>,
                             segments: seq<TranscriptionSegment>, next: TranscriptionSegment)
    requires |segments| >= 1
    ensures CreateSRTContent(TranscriptionResponse(text, Some(segments + [next]), language))
            == CreateSRTContent(TranscriptionResponse(text, Some(segments), language)) + "\n" + SrtBlock(next)
  {
    SrtBlocksAppend(segments, next);
    JoinAppend(SrtBlocks(segments), SrtBlock(next), "\n");
  }

  lemma SrtBlocksAppend(segments: seq<TranscriptionSegment>, next: TranscriptionSegment)
    ensures SrtBlocks(segments + [next]) == SrtBlocks(segments) + [SrtBlock(next)]
  {
    MapStringsAppend(SrtBlock, segments, next);
  }
}
