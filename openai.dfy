/**
 * The transcription pipeline of lib/api/openai.ts: decide whether to compress
 * the file, cut it into chunks, transcribe every chunk with the remote
 * service (retrying network failures), and merge the chunk transcripts into
 * one transcript on one timeline, reporting stage progress on the way.
 *
 * The file helpers the pipeline imports but that are not part of this model
 * (MAX_CHUNK_SIZE, isVideoFile, isAudioFile, convertToMp3, splitAudioFile)
 * are the fields of a `Codec` value; the remote service is a `Remote`
 * function that gives, for a chunk, the language and the chunk index, the
 * sequence of outcomes its successive requests have.
 */
module OpenAi {
  import opened Wrappers
  import opened Strings
  import opened Whisper

  /** What the helpers outside this model answer for one run. */
  datatype Codec = Codec(
    maxChunkSize: nat,                                 // MAX_CHUNK_SIZE
    isVideoFile: bool,                                 // isVideoFile(file)
    isAudioFile: bool,                                 // isAudioFile(file)
    convertToMp3: Result<MediaFile, JsError>,          // convertToMp3(file)
    splitAudioFile: Result<seq<MediaFile>, JsError>)   // splitAudioFile(processedFile)

  /** One call of the progress callback: `onProgress(stage, progress)`. */
  datatype Event = Event(stage: string, progress: real)

  /** What one request for one chunk does. */
  datatype Attempt =
    | Responded(data: WhisperResponse)                  // response.ok, body parsed
    | HttpError(statusText: string, errorText: string)  // !response.ok, with its body text
    | Threw(error: JsError)                             // fetch or reading the body threw

  /**
   * How an asynchronous step settles. `Pending`: it has not settled within
   * the scripted attempts (every request failed at the network level, and
   * the source would go on retrying).
   */
  datatype Settled<+T> = Completed(value: T) | Failed(error: JsError) | Pending

  /** The settled result of one chunk, the 2000 ms waits it took, and its progress events. */
  datatype ChunkRun = ChunkRun(result: Settled<WhisperResponse>, waits: nat, events: seq<Event>)

  /** The result of a whole `transcribeAudio` call and the progress events it emitted. */
  datatype Run = Run(outcome: Settled<WhisperResponse>, events: seq<Event>)

  /** The remote service: the outcomes of the successive requests for (chunk, language, index). */
  type Remote = (MediaFile, string, nat) -> seq<Attempt>

  /** The time shift per chunk index used by the merge: `30 * 60` seconds. */
  const ChunkOffsetSeconds: real := 1800.0

  /** The wait before a retried request, in milliseconds. */
  const RetryDelayMillis: nat := 2000

  /** The error `fetch` rejects with when the network request itself fails. */
  const FetchFailure: JsError := JsError("TypeError", "Failed to fetch")

  const AnalyzingEvents: seq<Event> := [Event("analyzing", 0.0), Event("analyzing", 100.0)]
  const MergingEvents: seq<Event> := [Event("merging", 0.0), Event("merging", 100.0)]

  // ---------------------------------------------------------------------
  // Analysis, compression and splitting

  /** Whether the file goes through `compressAudio` before splitting. */
  predicate NeedsCompression(file: MediaFile, codec: Codec) {
    file.size > codec.maxChunkSize
    || codec.isVideoFile
    || (codec.isAudioFile && file.mimeType != "audio/mpeg")
  }

  /** `compressAudio`: the converted file (or the converter's error) and its two events. */
  function CompressAudio(codec: Codec): (Result<MediaFile, JsError>, seq<Event>) {
    match codec.convertToMp3
    case Ok(converted) => (Ok(converted), [Event("compressing", 0.0), Event("compressing", 100.0)])
    case Err(e) => (Err(e), [Event("compressing", 0.0)])
  }

  /** The chunk list: the processed file alone when it fits, otherwise what the splitter returns. */
  function Chunks(processed: MediaFile, codec: Codec): Result<seq<MediaFile>, JsError> {
    if processed.size > codec.maxChunkSize then codec.splitAudioFile else Ok([processed])
  }

  // ---------------------------------------------------------------------
  // One chunk: request, error classification, retry

  /** The progress reported when chunk `chunkIndex` of `totalChunks` is transcribed. */
  function ChunkProgress(chunkIndex: nat, totalChunks: nat): (p: real)
    requires chunkIndex < totalChunks
    ensures 0.0 < p <= 100.0
    ensures p == 100.0 <==> chunkIndex == totalChunks - 1
  {
    var n := totalChunks as real;
    var k := (chunkIndex + 1) as real;
    RatioBounds(k, n);
    (k / n) * 100.0
  }

  /** A ratio of a positive number to one at least as large lies in (0, 1], and is 1 only for equal numbers. */
  lemma RatioBounds(k: real, n: real)
    requires 0.0 < k <= n
    ensures 0.0 < k / n <= 1.0
    ensures k / n == 1.0 <==> k == n
  {
    var q := k / n;
    assert q * n == k;
    assert (q - 1.0) * n == k - n;
  }

  /** The later chunk always reports the larger progress. */
  lemma ChunkProgressIncreasing(i: nat, j: nat, n: nat)
    requires i < j < n
    ensures ChunkProgress(i, n) < ChunkProgress(j, n)
  {
    var nr := n as real;
    var a := (i + 1) as real;
    var b := (j + 1) as real;
    assert a / nr * nr == a && b / nr * nr == b;
    if a / nr >= b / nr {
      assert a / nr * nr >= b / nr * nr;
    }
  }

  /** The message of the error thrown for a non-ok response. */
  function HttpFailureMessage(statusText: string, errorText: string): string {
    "Transcription failed: " + statusText + ". " + errorText
  }

  /** Only a `TypeError` whose message is "Failed to fetch" is retried. */
  predicate IsFetchFailure(a: Attempt) {
    a.Threw? && a.error.name == FetchFailure.name && a.error.message == FetchFailure.message
  }

  /** How one request that is not retried settles the chunk. */
  function Settle(a: Attempt, chunkIndex: nat, totalChunks: nat): ChunkRun
    requires chunkIndex < totalChunks && !IsFetchFailure(a)
  {
    match a
    case Responded(data) =>
      ChunkRun(Completed(data), 0, [Event("transcribing", ChunkProgress(chunkIndex, totalChunks))])
    case HttpError(statusText, errorText) =>
      // whether or not the body parses as JSON, the Error thrown inside the
      // inner try is caught by its bare catch, which throws this one
      ChunkRun(Failed(JsError("Error", HttpFailureMessage(statusText, errorText))), 0, [])
    case Threw(e) =>
      ChunkRun(Failed(e), 0, [])
  }

  /** `transcribeChunk`: a network failure waits 2000 ms and calls itself again. */
  function TranscribeChunk(attempts: seq<Attempt>, chunkIndex: nat, totalChunks: nat): ChunkRun
    requires chunkIndex < totalChunks
    decreases |attempts|
  {
    if |attempts| == 0 then ChunkRun(Pending, 0, [])
    else if IsFetchFailure(attempts[0]) then
      var retried := TranscribeChunk(attempts[1..], chunkIndex, totalChunks);
      retried.(waits := retried.waits + 1)
    else Settle(attempts[0], chunkIndex, totalChunks)
  }

  /** The index of the first request that is not a network failure (|attempts| if none). */
  function FirstSettling(attempts: seq<Attempt>): (k: nat)
    ensures k <= |attempts|
    ensures forall j :: 0 <= j < k ==> IsFetchFailure(attempts[j])
    ensures k < |attempts| ==> !IsFetchFailure(attempts[k])
  {
    if |attempts| == 0 then 0
    else if IsFetchFailure(attempts[0]) then 1 + FirstSettling(attempts[1..])
    else 0
  }

  /**
   * A chunk settles as its first request that is not a network failure
   * settles, after one wait per earlier failure; when every request fails at
   * the network level it is still retrying after one wait per request.
   */
  lemma {:induction false} RetryUntilSettled(attempts: seq<Attempt>, chunkIndex: nat, totalChunks: nat)
    requires chunkIndex < totalChunks
    ensures var k := FirstSettling(attempts);
            TranscribeChunk(attempts, chunkIndex, totalChunks)
            == if k < |attempts| then Settle(attempts[k], chunkIndex, totalChunks).(waits := k)
               else ChunkRun(Pending, k, [])
  {
    if |attempts| > 0 && IsFetchFailure(attempts[0]) {
      RetryUntilSettled(attempts[1..], chunkIndex, totalChunks);
    }
  }

  /**
   * A non-ok response ends the chunk with "Transcription failed: <status>. <body>"
   * and is never retried, whatever the later requests would have done.
   */
  lemma HttpErrorIsTerminal(attempts: seq<Attempt>, k: nat, chunkIndex: nat, totalChunks: nat)
    requires chunkIndex < totalChunks
    requires k < |attempts| && attempts[k].HttpError?
    requires forall j :: 0 <= j < k ==> IsFetchFailure(attempts[j])
    ensures TranscribeChunk(attempts, chunkIndex, totalChunks)
            == ChunkRun(Failed(JsError("Error", "Transcription failed: " + attempts[k].statusText
                                                 + ". " + attempts[k].errorText)), k, [])
  {
    RetryUntilSettled(attempts, chunkIndex, totalChunks);
    FirstSettlingIs(attempts, k);
  }

  lemma {:induction false} FirstSettlingIs(attempts: seq<Attempt>, k: nat)
    requires k < |attempts| && !IsFetchFailure(attempts[k])
    requires forall j :: 0 <= j < k ==> IsFetchFailure(attempts[j])
    ensures FirstSettling(attempts) == k
  {
    if k > 0 {
      FirstSettlingIs(attempts[1..], k - 1);
    }
  }

  /** `n` network failures in a row. */
  function FetchFailures(n: nat): (s: seq<Attempt>)
    ensures |s| == n && forall j :: 0 <= j < n ==> IsFetchFailure(s[j])
  {
    seq(n, _ => Threw(FetchFailure))
  }

  /** Network failures before a request change nothing but the number of waits. */
  lemma {:induction false} RetryIsTransparent(n: nat, attempts: seq<Attempt>, chunkIndex: nat, totalChunks: nat)
    requires chunkIndex < totalChunks
    ensures var before := TranscribeChunk(attempts, chunkIndex, totalChunks);
            var after := TranscribeChunk(FetchFailures(n) + attempts, chunkIndex, totalChunks);
            after.result == before.result && after.events == before.events
            && after.waits == before.waits + n
  {
    var s := FetchFailures(n) + attempts;
    if n == 0 {
      assert s == attempts;
    } else {
      assert s[0] == Threw(FetchFailure);
      assert s[1..] == FetchFailures(n - 1) + attempts;
      RetryIsTransparent(n - 1, attempts, chunkIndex, totalChunks);
    }
  }

  // ---------------------------------------------------------------------
  // All chunks (Promise.all over chunks.map)

  /** Every chunk is requested; run i is chunk i's run. */
  function RunChunks(chunks: seq<MediaFile>, language: string, remote: Remote): (runs: seq<ChunkRun>)
    ensures |runs| == |chunks|
  {
    seq(|chunks|, i requires 0 <= i < |chunks| => TranscribeChunk(remote(chunks[i], language, i), i, |chunks|))
  }

  /** The progress events of all chunk runs, in chunk order. */
  function ChunkEvents(runs: seq<ChunkRun>): seq<Event> {
    if runs == [] then [] else runs[0].events + ChunkEvents(runs[1..])
  }

  /**
   * `Promise.all`: the results by index when every run completed; otherwise
   * the first failure by index, even when another run is still pending;
   * otherwise pending.
   */
  function Gather(runs: seq<ChunkRun>): Settled<seq<WhisperResponse>> {
    if runs == [] then Completed([])
    else
      var rest := Gather(runs[1..]);
      match runs[0].result
      case Failed(e) => Failed(e)
      case Pending => if rest.Failed? then Failed(rest.error) else Pending
      case Completed(d) =>
        match rest
        case Completed(ds) => Completed([d] + ds)
        case Failed(e) => Failed(e)
        case Pending => Pending
  }

  /** The gathered results are complete exactly when every run completed, and are then index-aligned. */
  lemma {:induction false} GatherCompleted(runs: seq<ChunkRun>)
    ensures Gather(runs).Completed? <==> forall i :: 0 <= i < |runs| ==> runs[i].result.Completed?
    ensures Gather(runs).Completed? ==>
              |Gather(runs).value| == |runs|
              && forall i :: 0 <= i < |runs| ==> Gather(runs).value[i] == runs[i].result.value
  {
    if runs != [] {
      GatherCompleted(runs[1..]);
      if Gather(runs).Completed? {
        assert runs[0].result.Completed?;
        assert Gather(runs[1..]).Completed?;
      }
      if forall i :: 0 <= i < |runs| ==> runs[i].result.Completed? {
        assert forall i :: 0 <= i < |runs| - 1 ==> runs[1..][i].result.Completed? by {
          forall i | 0 <= i < |runs| - 1 ensures runs[1..][i].result.Completed? {
            assert runs[1..][i] == runs[i + 1];
          }
        }
      }
    }
  }

  /** The gathered result fails exactly when some run failed, with the error of the first one. */
  lemma {:induction false} GatherFailed(runs: seq<ChunkRun>)
    ensures Gather(runs).Failed? <==> exists i :: 0 <= i < |runs| && runs[i].result.Failed?
    ensures Gather(runs).Failed? ==>
              exists i :: 0 <= i < |runs| && runs[i].result == Failed(Gather(runs).error)
                          && forall j :: 0 <= j < i ==> !runs[j].result.Failed?
  {
    if runs != [] {
      GatherFailed(runs[1..]);
      if Gather(runs).Failed? && !runs[0].result.Failed? {
        var i :| 0 <= i < |runs| - 1 && runs[1..][i].result == Failed(Gather(runs[1..]).error)
                 && forall j :: 0 <= j < i ==> !runs[1..][j].result.Failed?;
        assert runs[i + 1] == runs[1..][i];
        assert forall j :: 0 <= j < i + 1 ==> !runs[j].result.Failed? by {
          forall j | 0 <= j < i + 1 ensures !runs[j].result.Failed? {
            if j > 0 { assert runs[j] == runs[1..][j - 1]; }
          }
        }
      }
      if exists i :: 0 <= i < |runs| && runs[i].result.Failed? {
        var i :| 0 <= i < |runs| && runs[i].result.Failed?;
        if i > 0 {
          assert runs[1..][i - 1] == runs[i];
        }
      }
    }
  }

  // ---------------------------------------------------------------------
  // Merge

  /** The id a merged segment gets: `segment-{chunkIndex}-{id}`. */
  function MergedId(chunkIndex: nat, localId: string): string {
    "segment-" + NatToString(chunkIndex) + "-" + localId
  }

  /** The number of decimal digits at the front of `s`. */
  function LeadingDigits(s: string): (n: nat)
    ensures n <= |s| && AllDigits(s[..n])
    ensures n < |s| ==> !IsDigit(s[n])
  {
    if s == [] || !IsDigit(s[0]) then 0
    else
      var n := 1 + LeadingDigits(s[1..]);
      assert s[..n] == [s[0]] + s[1..][..n - 1];
      n
  }

  lemma {:induction false} LeadingDigitsBeforeDash(d: string, rest: string)
    requires AllDigits(d)
    ensures LeadingDigits(d + "-" + rest) == |d|
  {
    if d != [] {
      assert (d + "-" + rest)[1..] == d[1..] + "-" + rest;
      LeadingDigitsBeforeDash(d[1..], rest);
    }
  }

  /** Reads a merged id back into its chunk index and local id. */
  function ParseMergedId(s: string): Option<(nat, string)> {
    if |s| >= 8 && s[..8] == "segment-" then
      var t := s[8..];
      var n := LeadingDigits(t);
      if 0 < n < |t| && t[n] == '-' then Some((DigitsValue(t[..n]), t[n + 1..])) else None
    else None
  }

  /** A merged id reads back as the chunk index and local id it was made from. */
  lemma ParseMergedIdRoundTrip(chunkIndex: nat, localId: string)
    ensures ParseMergedId(MergedId(chunkIndex, localId)) == Some((chunkIndex, localId))
  {
    var d := NatToString(chunkIndex);
    var s := MergedId(chunkIndex, localId);
    var t := d + "-" + localId;
    assert s == "segment-" + t;
    assert s[..8] == "segment-" && s[8..] == t;
    LeadingDigitsBeforeDash(d, localId);
    assert t[..|d|] == d;
    assert t[|d| + 1..] == localId;
  }

  /** Distinct (chunk index, local id) pairs give distinct merged ids. */
  lemma MergedIdInjective(c1: nat, id1: string, c2: nat, id2: string)
    requires MergedId(c1, id1) == MergedId(c2, id2)
    ensures c1 == c2 && id1 == id2
  {
    ParseMergedIdRoundTrip(c1, id1);
    ParseMergedIdRoundTrip(c2, id2);
  }

  /** One segment of chunk `chunkIndex`, moved onto the global timeline. */
  function ShiftSegment(s: WhisperSegment, chunkIndex: nat): WhisperSegment {
    var offset := chunkIndex as real * ChunkOffsetSeconds;
    WhisperSegment(MergedId(chunkIndex, s.id), s.start + offset, s.end + offset, s.text)
  }

  function ShiftChunk(segments: seq<WhisperSegment>, chunkIndex: nat): (r: seq<WhisperSegment>)
    ensures |r| == |segments|
    ensures forall j :: 0 <= j < |r| ==> r[j] == ShiftSegment(segments[j], chunkIndex)
  {
    seq(|segments|, j requires 0 <= j < |segments| => ShiftSegment(segments[j], chunkIndex))
  }

  /** The shifted segments of `results`, the first of which is chunk `first`. */
  function MergeSegmentsFrom(results: seq<WhisperResponse>, first: nat): seq<WhisperSegment> {
    if results == [] then []
    else ShiftChunk(results[0].segments, first) + MergeSegmentsFrom(results[1..], first + 1)
  }

  function ChunkTexts(results: seq<WhisperResponse>): (texts: seq<string>)
    ensures |texts| == |results|
  {
    seq(|results|, i requires 0 <= i < |results| => results[i].text)
  }

  /** The merging step of `transcribeAudio`. */
  function Merge(results: seq<WhisperResponse>): WhisperResponse {
    WhisperResponse(Join(ChunkTexts(results), " "), MergeSegmentsFrom(results, 0))
  }

  /** The number of segments of the chunks before chunk `c`. */
  function SegmentsBefore(results: seq<WhisperResponse>, c: nat): nat
    requires c <= |results|
  {
    if c == 0 then 0 else SegmentsBefore(results, c - 1) + |results[c - 1].segments|
  }

  lemma {:induction false} SegmentsBeforeTail(results: seq<WhisperResponse>, c: nat)
    requires 1 <= c <= |results|
    ensures SegmentsBefore(results, c) == |results[0].segments| + SegmentsBefore(results[1..], c - 1)
  {
    if c > 1 {
      SegmentsBeforeTail(results, c - 1);
      assert results[1..][c - 2] == results[c - 1];
    }
  }

  lemma {:induction false} MergeSegmentsFromLength(results: seq<WhisperResponse>, first: nat)
    ensures |MergeSegmentsFrom(results, first)| == SegmentsBefore(results, |results|)
  {
    if results != [] {
      MergeSegmentsFromLength(results[1..], first + 1);
      SegmentsBeforeTail(results, |results|);
    }
  }

  lemma {:induction false} MergeSegmentsFromAt(results: seq<WhisperResponse>, first: nat, c: nat, j: nat)
    requires c < |results| && j < |results[c].segments|
    ensures SegmentsBefore(results, c) + j < |MergeSegmentsFrom(results, first)|
    ensures MergeSegmentsFrom(results, first)[SegmentsBefore(results, c) + j]
            == ShiftSegment(results[c].segments[j], first + c)
  {
    MergeSegmentsFromLength(results, first);
    SegmentsBeforeMonotone(results, c + 1, |results|);
    if c > 0 {
      SegmentsBeforeTail(results, c);
      assert results[1..][c - 1] == results[c];
      MergeSegmentsFromAt(results[1..], first + 1, c - 1, j);
    }
  }

  lemma {:induction false} SegmentsBeforeMonotone(results: seq<WhisperResponse>, c: nat, d: nat)
    requires c <= d <= |results|
    ensures SegmentsBefore(results, c) <= SegmentsBefore(results, d)
  {
    if c < d {
      SegmentsBeforeMonotone(results, c, d - 1);
    }
  }

  /**
   * The merged transcript holds every segment of every chunk, chunk after
   * chunk: the j-th segment of chunk c sits at the number of segments before
   * chunk c plus j, with id `segment-c-id`, its text unchanged, and start and
   * end moved by c * 1800 seconds (so its length is unchanged).
   */
  lemma MergeSegmentAt(results: seq<WhisperResponse>, c: nat, j: nat)
    requires c < |results| && j < |results[c].segments|
    ensures |Merge(results).segments| == SegmentsBefore(results, |results|)
    ensures var local := results[c].segments[j];
            var k := SegmentsBefore(results, c) + j;
            k < |Merge(results).segments|
            && Merge(results).segments[k].id == "segment-" + NatToString(c) + "-" + local.id
            && Merge(results).segments[k].text == local.text
            && Merge(results).segments[k].start == local.start + c as real * 1800.0
            && Merge(results).segments[k].end == local.end + c as real * 1800.0
            && Merge(results).segments[k].end - Merge(results).segments[k].start == local.end - local.start
  {
    MergeSegmentsFromLength(results, 0);
    MergeSegmentsFromAt(results, 0, c, j);
  }

  /**
   * The merged text is built chunk by chunk: one chunk gives its own text,
   * and each further chunk appends " " and its text.
   */
  lemma MergedText(results: seq<WhisperResponse>, next: WhisperResponse)
    ensures Merge([next]).text == next.text
    ensures |results| >= 1 ==> Merge(results + [next]).text == Merge(results).text + " " + next.text
  {
    if |results| >= 1 {
      assert ChunkTexts(results + [next]) == ChunkTexts(results) + [next.text];
      JoinAppend(ChunkTexts(results), next.text, " ");
    }
  }

  /** Start times never decrease along a segment list. */
  predicate StartsOrdered(segments: seq<WhisperSegment>) {
    forall p, q :: 0 <= p < q < |segments| ==> segments[p].start <= segments[q].start
  }

  /** Every chunk's own start times are ordered and lie within its 30-minute window. */
  predicate ChunksWithinWindow(results: seq<WhisperResponse>) {
    forall c :: 0 <= c < |results| ==>
      StartsOrdered(results[c].segments)
      && forall j :: 0 <= j < |results[c].segments| ==>
           0.0 <= results[c].segments[j].start <= ChunkOffsetSeconds
  }

  lemma {:induction false} MergeSegmentsFromOrdered(results: seq<WhisperResponse>, first: nat)
    requires ChunksWithinWindow(results)
    ensures StartsOrdered(MergeSegmentsFrom(results, first))
    ensures forall k :: 0 <= k < |MergeSegmentsFrom(results, first)| ==>
              MergeSegmentsFrom(results, first)[k].start >= first as real * ChunkOffsetSeconds
  {
    if results != [] {
      var rest := results[1..];
      assert ChunksWithinWindow(rest) by {
        forall c | 0 <= c < |rest| ensures StartsOrdered(rest[c].segments)
          && forall j :: 0 <= j < |rest[c].segments| ==> 0.0 <= rest[c].segments[j].start <= ChunkOffsetSeconds
        {
          assert rest[c] == results[c + 1];
        }
      }
      MergeSegmentsFromOrdered(rest, first + 1);
      var head := ShiftChunk(results[0].segments, first);
      var lo := first as real * ChunkOffsetSeconds;
      ShiftedWithinWindow(results, first);
      OrderedConcat(head, MergeSegmentsFrom(rest, first + 1), lo + ChunkOffsetSeconds);
    }
  }

  /** The first chunk, shifted by its index, is ordered and starts within its window. */
  lemma ShiftedWithinWindow(results: seq<WhisperResponse>, first: nat)
    requires ChunksWithinWindow(results) && results != []
    ensures var head := ShiftChunk(results[0].segments, first);
            var lo := first as real * ChunkOffsetSeconds;
            StartsOrdered(head) && forall k :: 0 <= k < |head| ==> lo <= head[k].start <= lo + ChunkOffsetSeconds
  {
  }

  /** Two ordered runs, the first ending no later than `bound` and the second starting no earlier, are ordered together. */
  lemma OrderedConcat(head: seq<WhisperSegment>, tail: seq<WhisperSegment>, bound: real)
    requires StartsOrdered(head) && StartsOrdered(tail)
    requires forall k :: 0 <= k < |head| ==> head[k].start <= bound
    requires forall k :: 0 <= k < |tail| ==> tail[k].start >= bound
    ensures StartsOrdered(head + tail)
  {
    var all := head + tail;
    forall p, q | 0 <= p < q < |all| ensures all[p].start <= all[q].start {
      if q < |head| {
        assert all[p] == head[p] && all[q] == head[q];
      } else if p >= |head| {
        assert all[p] == tail[p - |head|] && all[q] == tail[q - |head|];
      } else {
        assert all[p] == head[p] && all[q] == tail[q - |head|];
      }
    }
  }

  /**
   * When each chunk's segments are in order and start within the chunk's
   * 30 minutes, the merged segments are in order of start time.
   */
  lemma MergedStartsOrdered(results: seq<WhisperResponse>)
    requires ChunksWithinWindow(results)
    ensures StartsOrdered(Merge(results).segments)
  {
    MergeSegmentsFromOrdered(results, 0);
  }

  // ---------------------------------------------------------------------
  // The whole pipeline

  /** What `transcribeAudio` does, as a function of its inputs and of the foreign calls' outcomes. */
  function Pipeline(file: MediaFile, language: string, codec: Codec, remote: Remote): Run {
    var compressed := if NeedsCompression(file, codec) then CompressAudio(codec) else (Ok(file), []);
    var beforeSplit := AnalyzingEvents + compressed.1;
    match compressed.0
    case Err(e) => Run(Failed(e), beforeSplit)
    case Ok(processed) =>
      var splitting := beforeSplit + [Event("splitting", 0.0)];
      match Chunks(processed, codec)
      case Err(e) => Run(Failed(e), splitting)
      case Ok(chunks) =>
        var runs := RunChunks(chunks, language, remote);
        var transcribing := splitting + [Event("splitting", 100.0), Event("transcribing", 0.0)] + ChunkEvents(runs);
        match Gather(runs)
        case Failed(e) => Run(Failed(e), transcribing)
        case Pending => Run(Pending, transcribing)
        case Completed(results) => Run(Completed(Merge(results)), transcribing + MergingEvents)
  }

  /** `transcribeAudio`, step by step. */
  method TranscribeAudio(file: MediaFile, language: string, codec: Codec, remote: Remote)
    returns (outcome: Settled<WhisperResponse>, events: seq<Event>)
    ensures Run(outcome, events) == Pipeline(file, language, codec, remote)
  {
    events := [Event("analyzing", 0.0)];
    var needsCompression := NeedsCompression(file, codec);
    events := events + [Event("analyzing", 100.0)];

    var processedFile: MediaFile;
    if needsCompression {
      events := events + [Event("compressing", 0.0)];
      match codec.convertToMp3
      case Err(e) =>
        outcome := Failed(e);
        return;
      case Ok(converted) =>
        processedFile := converted;
      events := events + [Event("compressing", 100.0)];
    } else {
      processedFile := file;
    }

    ghost var compressed := if needsCompression then CompressAudio(codec) else (Ok(file), []);
    assert events == AnalyzingEvents + compressed.1 && compressed.0 == Ok(processedFile);
    events := events + [Event("splitting", 0.0)];
    var chunks: seq<MediaFile>;
    if processedFile.size > codec.maxChunkSize {
      match codec.splitAudioFile
      case Err(e) =>
        outcome := Failed(e);
        return;
      case Ok(parts) =>
        chunks := parts;
    } else {
      chunks := [processedFile];
    }
    events := events + [Event("splitting", 100.0)];

    ghost var splitting := AnalyzingEvents + compressed.1 + [Event("splitting", 0.0)];
    assert events == splitting + [Event("splitting", 100.0)];
    assert Chunks(processedFile, codec) == Ok(chunks);
    var runs := RunChunks(chunks, language, remote);
    events := events + [Event("transcribing", 0.0)] + ChunkEvents(runs);
    assert events == splitting + [Event("splitting", 100.0), Event("transcribing", 0.0)] + ChunkEvents(runs);
    var results: seq<WhisperResponse>;
    match Gather(runs)
    case Failed(e) =>
      outcome := Failed(e);
      return;
    case Pending =>
      outcome := Pending;
      return;
    case Completed(all) =>
      results := all;

    events := events + [Event("merging", 0.0)];
    var merged := Merge(results);
    events := events + [Event("merging", 100.0)];
    outcome := Completed(merged);
  }

  // ---------------------------------------------------------------------
  // Properties of the pipeline

  /** The progress events of n chunk runs that all completed: one per chunk, in order. */
  lemma {:induction false} CompletedChunkEvents(chunks: seq<MediaFile>, language: string, remote: Remote, from: nat)
    requires from <= |chunks|
    decreases |chunks| - from
    requires forall i :: from <= i < |chunks| ==> RunChunks(chunks, language, remote)[i].result.Completed?
    ensures ChunkEvents(RunChunks(chunks, language, remote)[from..])
            == seq(|chunks| - from, i requires 0 <= i < |chunks| - from =>
                     Event("transcribing", ChunkProgress(from + i, |chunks|)))
  {
    var runs := RunChunks(chunks, language, remote);
    if from < |chunks| {
      CompletedChunkEvents(chunks, language, remote, from + 1);
      assert runs[from..][1..] == runs[from + 1..];
      RetryUntilSettled(remote(chunks[from], language, from), from, |chunks|);
    }
  }

  /**
   * A completed run reports the stages in order: analyzing 0 and 100, then
   * compressing 0 and 100 only when the file needed compression, splitting 0
   * and 100, transcribing 0, one transcribing event per chunk with progress
   * (i+1)/n*100 in chunk order, and merging 0 and 100 last.
   */
  lemma CompletedRunEvents(file: MediaFile, language: string, codec: Codec, remote: Remote)
    requires Pipeline(file, language, codec, remote).outcome.Completed?
    ensures var processed := if NeedsCompression(file, codec) then codec.convertToMp3.value else file;
            Chunks(processed, codec).Ok?
            && var n := |Chunks(processed, codec).value|;
            Pipeline(file, language, codec, remote).events
            == AnalyzingEvents
               + (if NeedsCompression(file, codec) then [Event("compressing", 0.0), Event("compressing", 100.0)] else [])
               + [Event("splitting", 0.0), Event("splitting", 100.0), Event("transcribing", 0.0)]
               + seq(n, i requires 0 <= i < n => Event("transcribing", ChunkProgress(i, n)))
               + MergingEvents
  {
    var processed := if NeedsCompression(file, codec) then codec.convertToMp3.value else file;
    var chunks := Chunks(processed, codec).value;
    var runs := RunChunks(chunks, language, remote);
    GatherCompleted(runs);
    CompletedChunkEvents(chunks, language, remote, 0);
    assert runs[0..] == runs;
  }

  /**
   * A completed run's transcript is the merge of the chunk transcripts, each
   * of which is the first non-network-failure response for that chunk.
   */
  lemma CompletedRunMerges(file: MediaFile, language: string, codec: Codec, remote: Remote)
    requires Pipeline(file, language, codec, remote).outcome.Completed?
    ensures var processed := if NeedsCompression(file, codec) then codec.convertToMp3.value else file;
            Chunks(processed, codec).Ok?
            && var chunks := Chunks(processed, codec).value;
            exists results: seq<WhisperResponse> ::
              |results| == |chunks|
              && Pipeline(file, language, codec, remote).outcome.value == Merge(results)
              && forall i :: 0 <= i < |chunks| ==>
                   var attempts := remote(chunks[i], language, i);
                   var k := FirstSettling(attempts);
                   k < |attempts| && attempts[k] == Responded(results[i])
  {
    var processed := if NeedsCompression(file, codec) then codec.convertToMp3.value else file;
    var chunks := Chunks(processed, codec).value;
    var runs := RunChunks(chunks, language, remote);
    GatherCompleted(runs);
    var results := Gather(runs).value;
    assert Pipeline(file, language, codec, remote).outcome == Completed(Merge(results));
    forall i | 0 <= i < |chunks|
      ensures var attempts := remote(chunks[i], language, i);
              var k := FirstSettling(attempts);
              k < |attempts| && attempts[k] == Responded(results[i])
    {
      var attempts := remote(chunks[i], language, i);
      assert runs[i] == TranscribeChunk(attempts, i, |chunks|);
      assert runs[i].result == Completed(results[i]);
      RetryUntilSettled(attempts, i, |chunks|);
    }
  }

  /**
   * When one chunk's request ends in an error that is not retried, the whole
   * run fails and no merging event is reported.
   */
  lemma AnyChunkFailureFailsRun(file: MediaFile, language: string, codec: Codec, remote: Remote, i: nat)
    requires var processed := if NeedsCompression(file, codec) then codec.convertToMp3 else Ok(file);
             processed.Ok? && Chunks(processed.value, codec).Ok?
             && i < |Chunks(processed.value, codec).value|
             && var chunks := Chunks(processed.value, codec).value;
                var attempts := remote(chunks[i], language, i);
                FirstSettling(attempts) < |attempts| && !attempts[FirstSettling(attempts)].Responded?
    ensures Pipeline(file, language, codec, remote).outcome.Failed?
    ensures forall e :: e in Pipeline(file, language, codec, remote).events ==> e.stage != "merging"
  {
    var processed := if NeedsCompression(file, codec) then codec.convertToMp3.value else file;
    var chunks := Chunks(processed, codec).value;
    var runs := RunChunks(chunks, language, remote);
    RetryUntilSettled(remote(chunks[i], language, i), i, |chunks|);
    assert runs[i].result.Failed?;
    GatherFailed(runs);
    NoMergingUnlessCompleted(file, language, codec, remote);
  }

  /** A run that does not complete reports no merging event. */
  lemma NoMergingUnlessCompleted(file: MediaFile, language: string, codec: Codec, remote: Remote)
    ensures !Pipeline(file, language, codec, remote).outcome.Completed? ==>
              forall e :: e in Pipeline(file, language, codec, remote).events ==> e.stage != "merging"
  {
    var compressed := if NeedsCompression(file, codec) then CompressAudio(codec) else (Ok(file), []);
    if compressed.0.Ok? && Chunks(compressed.0.value, codec).Ok? {
      var runs := RunChunks(Chunks(compressed.0.value, codec).value, language, remote);
      ChunksReportTranscribing(Chunks(compressed.0.value, codec).value, language, remote);
      NoMergingInChunkEvents(runs);
    }
  }

  /** Every event a chunk run reports is a transcribing event. */
  lemma ChunksReportTranscribing(chunks: seq<MediaFile>, language: string, remote: Remote)
    ensures var runs := RunChunks(chunks, language, remote);
            forall j | 0 <= j < |runs| :: forall e :: e in runs[j].events ==> e.stage == "transcribing"
  {
    var runs := RunChunks(chunks, language, remote);
    forall j | 0 <= j < |runs| ensures forall e :: e in runs[j].events ==> e.stage == "transcribing" {
      RetryUntilSettled(remote(chunks[j], language, j), j, |chunks|);
    }
  }

  lemma {:induction false} NoMergingInChunkEvents(runs: seq<ChunkRun>)
    requires forall i :: 0 <= i < |runs| ==> forall e :: e in runs[i].events ==> e.stage == "transcribing"
    ensures forall e :: e in ChunkEvents(runs) ==> e.stage == "transcribing"
  {
    if runs != [] {
      NoMergingInChunkEvents(runs[1..]);
    }
  }

  /**
   * A file that needs no compression goes through unchanged: no compressing
   * event, and when it fits in one chunk it is the only chunk, so its run is
   * that of the single request sequence for (file, language, 0).
   */
  lemma PassThrough(file: MediaFile, language: string, codec: Codec, remote: Remote)
    requires !NeedsCompression(file, codec)
    ensures file.size <= codec.maxChunkSize
    ensures Pipeline(file, language, codec, remote).events[..3]
            == AnalyzingEvents + [Event("splitting", 0.0)]
    ensures var single := TranscribeChunk(remote(file, language, 0), 0, 1);
            Pipeline(file, language, codec, remote).outcome
            == match single.result
               case Completed(d) => Completed(Merge([d]))
               case Failed(e) => Failed(e)
               case Pending => Pending
  {
    var runs := RunChunks([file], language, remote);
    assert runs == [TranscribeChunk(remote(file, language, 0), 0, 1)];
    assert runs[1..] == [];
    assert Gather(runs[1..]) == Completed([]);
    var events := Pipeline(file, language, codec, remote).events;
    assert events == AnalyzingEvents + [Event("splitting", 0.0)] + events[3..];
    match runs[0].result
    case Completed(d) =>
      assert [d] + [] == [d];
    case Failed(e) =>
    case Pending =>
  }

  /** Network failures before any requests leave the whole run unchanged. */
  lemma RetriesLeaveRunUnchanged(file: MediaFile, language: string, codec: Codec,
                                 remote: Remote, flaky: Remote, failures: (MediaFile, string, nat) -> nat)
    requires forall f, l, i :: flaky(f, l, i) == FetchFailures(failures(f, l, i)) + remote(f, l, i)
    ensures Pipeline(file, language, codec, flaky) == Pipeline(file, language, codec, remote)
  {
    var processed := if NeedsCompression(file, codec) then codec.convertToMp3 else Ok(file);
    if processed.Ok? && Chunks(processed.value, codec).Ok? {
      var chunks := Chunks(processed.value, codec).value;
      var a := RunChunks(chunks, language, flaky);
      var b := RunChunks(chunks, language, remote);
      forall i | 0 <= i < |chunks| ensures a[i].result == b[i].result && a[i].events == b[i].events {
        RetryIsTransparent(failures(chunks[i], language, i), remote(chunks[i], language, i), i, |chunks|);
      }
      SameResultsSameGather(a, b);
    }
  }

  lemma {:induction false} SameResultsSameGather(a: seq<ChunkRun>, b: seq<ChunkRun>)
    requires |a| == |b|
    requires forall i :: 0 <= i < |a| ==> a[i].result == b[i].result && a[i].events == b[i].events
    ensures Gather(a) == Gather(b) && ChunkEvents(a) == ChunkEvents(b)
  {
    if a != [] {
      SameResultsSameGather(a[1..], b[1..]);
    }
  }
}
