# combi — a Dafny model of the transcription front end

This project models the browser-side logic of a Next.js app that turns audio and video files into transcripts with a remote speech-to-text service, and shows, copies and exports those transcripts. It covers the following parts:

- **The transcription pipeline** (`lib/api/openai.ts`):
  - decide whether the file must be compressed;
  - cut it into chunks;
  - transcribe every chunk, retrying network failures and failing on service errors;
  - merge the chunk transcripts onto one timeline;
  - report the progress of each stage along the way.
- **The formatters:**
  - the two SRT writers: one numbers blocks by segment id, the other by position, through `Date.prototype.toISOString`;
  - the `MM:SS` / `HH:MM:SS` timestamps and the copied and downloaded text lines;
  - the price dialog and the processing-time estimate.
- **The validators:** the upload file check and the YouTube URL pattern of the YouTube route.
- **The small state machines:**
  - the ten-entry history in local storage;
  - the lazily loaded FFmpeg instance;
  - the page's stage, progress and abort handling;
  - the progress dots;
  - the translation tables with their English fallback.

There is one module per source file, each in its own `.dfy` file:

- `Wrappers`, `Strings` (decimal text, `padStart`, `join`) and `RealMath` (`Math.floor`, `Math.ceil`, the JavaScript `%`) are shared.
- `Whisper` holds the transcript records.
- The other modules follow the source files.

Numbers are exact reals. The JavaScript remainder is written out as `x - n * trunc(x / n)`, so it takes the sign of the dividend. The calls the pipeline makes into code not shown are parameters:

- a `Codec` value holds the answers of `MAX_CHUNK_SIZE`, `isVideoFile`, `isAudioFile`, `convertToMp3` and `splitAudioFile`;
- a `Remote` function gives, for a chunk, the language and the chunk index, the outcomes of the successive requests for that chunk.

Where the source updates state in place, the model uses classes:

- the storage slot;
- the FFmpeg singleton;
- the React state of the page.

Points of the code that are easy to misread:

- The code shifts chunk `c` by `c * 1800` seconds (`30 * 60`), whatever the chunk's real start is.
- A non-ok response always ends with `Transcription failed: <status>. <body>`, never with the service's own error message. The error thrown inside the inner `try` is caught by its bare `catch`.
- The progress a chunk reports is `(index + 1) / n * 100` for that chunk's own index. It is reported once that chunk's response has been read.
- The pipeline has no cancellation check. The abort signal never reaches it (see Findings).
- Merged start times are ordered only when each chunk's own times lie within its 30 minutes. The code does not enforce this.

## Model

| member | source | states |
|---|---|---|
| OpenAi.ChunkProgress | lib/api/openai.ts:133 | The progress of chunk i of n lies in (0, 100] and is 100 exactly for the last chunk |
| OpenAi.ChunkProgressIncreasing | lib/api/openai.ts:133 | A later chunk always reports strictly more progress than an earlier one |
| OpenAi.FirstSettling | lib/api/openai.ts:139 | The index of the first request that is not a "Failed to fetch" TypeError: every earlier request is such a failure, and the one at the index is not |
| OpenAi.RetryUntilSettled | lib/api/openai.ts:139-151 | A chunk settles exactly as its first request that is not a network failure settles, after one 2000 ms wait per earlier failure; if every request fails at the network level, the chunk is still retrying |
| OpenAi.HttpErrorIsTerminal | lib/api/openai.ts:114-129 | A non-ok response fails the chunk with "Transcription failed: " + statusText + ". " + errorText, whatever the body says, and is never retried |
| OpenAi.RetryIsTransparent | lib/api/openai.ts:139-151 | Network failures before a request change neither the chunk's result nor its progress events, only the number of waits |
| OpenAi.GatherCompleted | lib/api/openai.ts:212-216 | Promise.all completes exactly when every chunk completed, and its results are then aligned with the chunks by index |
| OpenAi.GatherFailed | lib/api/openai.ts:212-216 | Promise.all fails exactly when some chunk failed, and it fails with the error of the first failed chunk by index |
| OpenAi.ParseMergedIdRoundTrip | lib/api/openai.ts:225 | A merged id `segment-{c}-{id}` reads back as the chunk index and the local id it was built from |
| OpenAi.MergedIdInjective | lib/api/openai.ts:225 | Distinct (chunk index, local id) pairs give distinct merged ids |
| OpenAi.MergeSegmentAt | lib/api/openai.ts:223-230 | The merged list holds the sum of the chunks' segment counts; segment j of chunk c sits after all segments of earlier chunks, with id `segment-c-id`, the same text, and start and end both moved by c*1800 s, so its length is unchanged |
| OpenAi.MergedText | lib/api/openai.ts:222 | The merged text is the chunk texts in index order with single spaces between them |
| OpenAi.MergedStartsOrdered | lib/api/openai.ts:223-230 | When each chunk's segments are ordered and start within its 30 minutes, the merged segments are ordered by start time |
| OpenAi.TranscribeAudio | lib/api/openai.ts:160-243 | The step-by-step pipeline ends with the outcome and the event sequence the pipeline cases define: a compression or split error stops it, the first chunk failure fails it, and only a complete set of chunk results is merged |
| OpenAi.PassThrough | lib/api/openai.ts:172-206 | A file that needs no compression fits in one chunk, emits no compressing event, and is transcribed as the single chunk 0 |
| OpenAi.CompletedRunEvents | lib/api/openai.ts:170-232 | A completed run reports analyzing 0/100, compressing 0/100 exactly when compression was needed, splitting 0/100, transcribing 0, one transcribing event per chunk with (i+1)/n*100 in chunk order, then merging 0/100 |
| OpenAi.CompletedRunMerges | lib/api/openai.ts:212-231 | A completed run's transcript is the merge of one response per chunk, namely that chunk's first request that is not a network failure |
| OpenAi.AnyChunkFailureFailsRun | lib/api/openai.ts:212-220 | One chunk ending in an error that is not retried fails the whole run, and no merging event is reported |
| OpenAi.NoMergingUnlessCompleted | lib/api/openai.ts:218-232 | A run that does not complete reports no merging event |
| OpenAi.ChunksReportTranscribing | lib/api/openai.ts:133-134 | Every event a chunk reports is a transcribing event |
| OpenAi.RetriesLeaveRunUnchanged | lib/api/openai.ts:139-151 | Any number of network failures before each chunk's requests leaves the whole run unchanged: the same outcome and the same events |
| FileProcessing.ValidateFile | lib/utils/file-processing.ts:1-20 | A type outside the five allowed MIME types gets the type message, even when the file is also too big; an allowed type over 100 MiB gets the size message; the result is null exactly for an allowed type of at most 100 MiB |
| FileProcessing.FieldsOfTime | lib/utils/file-processing.ts:30-33 | For t >= 0 the minutes and seconds lie in 0..59 and the milliseconds in 0..999, and h*3600000 + m*60000 + s*1000 + ms = floor(t*1000) |
| FileProcessing.FormatTimeRoundTrip | lib/utils/file-processing.ts:29-42 | For t >= 0 `formatTime` writes at least two hour digits (never truncated), two-digit minutes and seconds and three-digit milliseconds, and the text reads back as floor(t*1000) milliseconds |
| FileProcessing.CreateSRTContent | lib/utils/file-processing.ts:22-27 | A transcription with no segment list, or an empty one, gives the empty text |
| FileProcessing.CreateSRTContentAppend | lib/utils/file-processing.ts:44-49 | The SRT text grows block by block: one segment gives its own block, and each further segment adds "\n" and its block `id\nT(start) --> T(end)\ntext\n`, numbered by the segment's id whatever its position |
| TranscriptionDisplay.TextDirection | components/transcription-display.tsx:51-52 | The direction is "rtl" exactly for "he" and "ar", and "ltr" otherwise |
| TranscriptionDisplay.TimeValue | components/transcription-display.tsx:28 | A valid date's time value lies within the ECMA-262 range of ±8.64e15 ms |
| TranscriptionDisplay.SrtTimestamp | components/transcription-display.tsx:28-35 | An SRT time throws exactly for an invalid date, and is a time of day exactly for a date in the years 0000..9999 |
| TranscriptionDisplay.DayClockFields | components/transcription-display.tsx:28-35 | The ISO hour, minute, second and millisecond fields are in range and spell out the milliseconds since midnight UTC, counted with the floor modulo |
| TranscriptionDisplay.DayClockWraps | components/transcription-display.tsx:28-35 | The ISO clock repeats every day: hours wrap modulo 24 |
| TranscriptionDisplay.ClockBeforeEpoch | components/transcription-display.tsx:28-31 | Half a second before the epoch shows 23:59:59.500, since days are counted by floor division |
| TranscriptionDisplay.SrtClockText | components/transcription-display.tsx:31 | Replacing the first "." of `HH:mm:ss.sss` changes only the separator before the milliseconds |
| TranscriptionDisplay.SrtTimestampWithinDay | components/transcription-display.tsx:28-35 | For 0 <= t < 86400 the SRT time of this component equals the `formatTime` text of the other SRT writer |
| TranscriptionDisplay.SrtTimestampWraps | components/transcription-display.tsx:28-35 | Within the four-digit years, a time one day later shows the same SRT time |
| TranscriptionDisplay.FormatSRT | components/transcription-display.tsx:25-39 | No segments give the empty text, and the export throws a RangeError exactly when some time is an invalid date |
| TranscriptionDisplay.RenderedWhenAllShown | components/transcription-display.tsx:25-39 | A text is produced exactly when every start and end time is a date of a four-digit year |
| TranscriptionDisplay.FormatSRTAppend | components/transcription-display.tsx:36-38 | Appending a segment after n others adds "\n" and the entry numbered n+1 |
| TranscriptionDisplay.FormatSRTIgnoresIds | components/transcription-display.tsx:26-36 | Segments that differ only in their ids give the same export: entries are numbered by position |
| TranscriptionDisplay.WritersAgree | components/transcription-display.tsx:25-39 | For segments within the first day whose ids are their positions 1..n, the position-numbered export equals the id-numbered `createSRTContent` of the same segments |
| TranscriptionDisplay.CopyText | components/transcription-display.tsx:55-62 | No segments copy the empty text |
| TranscriptionDisplay.CopyTextAppend | components/transcription-display.tsx:55-62 | The copied text grows line by line: one segment gives its line, and each further segment adds "\n" and its line |
| TranscriptionDisplay.TimedLineReadsBack | components/transcription-display.tsx:57-60 | A line starts with "[" and the start's timestamp, which reads back as the whole seconds of a non-negative start, and ends with the segment's text |
| TranscriptionDisplay.DownloadTextIsCopyText | components/transcription-display.tsx:55-80 | The text `handleDownload` builds for the txt format, with its own map and join, is exactly the text `handleCopy` copies |
| TranscriptionDisplay.DownloadContents | components/transcription-display.tsx:68-89 | The txt download is the copied text, saved as "transcription.txt"; the srt download is saved exactly when the export renders, as "transcription.srt", and is stopped exactly when some time is an invalid date; only the txt format uses the txt file name |
| Timestamps.FormatTimestampRoundTrip | lib/utils/format-timestamp.ts:1-16 | For t >= 0 the hours appear exactly when t >= 3600 (label of at least 8 characters, otherwise exactly 5); minutes and seconds lie in 0..59; the label reads back as floor(t) seconds |
| Timestamps.FormatTimestampShortExample | lib/utils/format-timestamp.ts:7 | 59.9 s shows as "00:59": the seconds are floored |
| Timestamps.FormatTimestampLongExample | lib/utils/format-timestamp.ts:11-13 | 3725 s shows as "01:02:05" |
| Timestamps.FormatTimestampHundredHours | lib/utils/format-timestamp.ts:9-12 | 360000 s shows as "100:00:00": the hours are never truncated |
| YouTubeRoute.MatcherSound | app/api/transcribe/youtube/route.ts:27-28 | Every string the matcher accepts is an optional scheme, an optional "www.", a listed host, "/" and a non-empty rest without line terminators |
| YouTubeRoute.MatcherComplete | app/api/transcribe/youtube/route.ts:27-28 | Every string of that shape is accepted by the matcher |
| YouTubeRoute.MatcherIsPattern | app/api/transcribe/youtube/route.ts:27-28 | The matcher accepts exactly the strings the pattern's grammar describes |
| YouTubeRoute.TextUrlAccepted | app/api/transcribe/youtube/route.ts:27-28 | A non-empty text `url` gets the 200 reply exactly when it has the pattern's shape |
| YouTubeRoute.WatchLinkAccepted | app/api/transcribe/youtube/route.ts:27 | "https://www.youtube.com/watch?v=x" is accepted |
| YouTubeRoute.BareHostRejected | app/api/transcribe/youtube/route.ts:27-28 | "youtube.com/" is rejected: nothing follows the slash |
| YouTubeRoute.MobileHostRejected | app/api/transcribe/youtube/route.ts:27-28 | "https://m.youtube.com/x" is rejected: "m." is no listed subdomain |
| YouTubeRoute.ShortHostBareRejected | app/api/transcribe/youtube/route.ts:27-28 | "youtu.be/" is rejected |
| YouTubeRoute.PostOutcomes | app/api/transcribe/youtube/route.ts:7-98 | An unreadable or null body gives 500 "Failed to process YouTube video"; a missing or falsy `url` gives 400 "No YouTube URL provided"; a rejected `url` gives 400 "Invalid YouTube URL"; only an accepted `url` gives 200 with the sample; `success` holds exactly on the 200; exactly one of `error` and `transcription` is present |
| YouTubeRoute.SampleConsistent | app/api/transcribe/youtube/route.ts:49-68 | The sample segments are numbered 1, 2, 3, each starts where the previous one ends and is non-empty, from 0 to 8.5 s |
| YouTubeRoute.SampleTextJoined | app/api/transcribe/youtube/route.ts:45-68 | The sample's full text is its segment texts joined by spaces |
| LocalStorage.SavedShape | lib/utils/local-storage.ts:18-29 | After a save the list has at most ten entries (one more than before, up to ten); the new item is first, followed by the earlier entries in their order, as many as fit |
| LocalStorage.SaveAllKeepsNewest | lib/utils/local-storage.ts:26-29 | A run of saves keeps the ten newest items, latest first, followed by the earlier list |
| LocalStorage.TranscriptionStore.Stored | lib/utils/local-storage.ts:37-45 | A missing key, unparsable text or a failing read gives []; a stored list is read back as it is; the answer is None (a JSON value that is not a list) exactly when the read succeeds and the value is not a list |
| LocalStorage.TranscriptionStore.SaveTranscription | lib/utils/local-storage.ts:12-35 | A save stores the read list with the new item in front, cut to ten; a stored value that is not a list, or a failed write, is swallowed and leaves the storage unchanged |
| LocalStorage.TranscriptionStore.ClearStoredTranscriptions | lib/utils/local-storage.ts:47-53 | A clear removes the list unless the removal throws, and afterwards the list reads as [] |
| LocalStorage.ClearThenSave | lib/utils/local-storage.ts:12-53 | After a clear, a successful save leaves exactly the new item |
| FFmpegWorker.FFmpeg.constructor | lib/config/ffmpeg-worker.ts:11 | A new instance is not loaded |
| FFmpegWorker.FFmpeg.Load | lib/config/ffmpeg-worker.ts:13-21 | A successful load marks the instance loaded; a failed one passes on its error and leaves the flag as it was |
| FFmpegWorker.Worker.constructor | lib/config/ffmpeg-worker.ts:4 | At first there is no instance |
| FFmpegWorker.Worker.GetFFmpeg | lib/config/ffmpeg-worker.ts:6-32 | A loaded instance is returned as it is; otherwise a fresh instance replaces the old one, and is kept and returned loaded after a successful load, or dropped when the load fails, with the error passed on |
| FFmpegWorker.Worker.DisposeFFmpeg | lib/config/ffmpeg-worker.ts:34-38 | After a dispose there is no instance |
| FFmpegWorker.RetryAfterFailure | lib/config/ffmpeg-worker.ts:24-28 | After a failed load the next call loads a fresh instance |
| FFmpegWorker.ReuseLoaded | lib/config/ffmpeg-worker.ts:7-9 | Once loaded, the same instance is returned whatever a load would do |
| FFmpegWorker.DisposeTwice | lib/config/ffmpeg-worker.ts:34-38 | Disposing twice is harmless, and the next call loads afresh |
| HomePage.InitialStagesUnique | app/page.tsx:14-20 | The five stages have distinct ids and start at 0 percent |
| HomePage.UpdatedStages | app/page.tsx:32-38 | An update keeps the length, order, ids and labels, and changes the progress only of the stages with the given id |
| HomePage.UpdateUnknownId | app/page.tsx:32-38 | An update for an id no stage has changes nothing |
| HomePage.UpdateOverrides | app/page.tsx:32-38 | A later update of the same stage overrides an earlier one, so repeating an update changes nothing |
| HomePage.UpdatesCommute | app/page.tsx:32-38 | Updates of different stages commute |
| HomePage.ReplayShowsLastProgress | app/page.tsx:67-70 | After a run of progress events each stage shows the progress of the last event for it, and the current stage is the last event's stage |
| HomePage.ReplayAppend | app/page.tsx:67-70 | Delivering events in two runs is the same as delivering them at once |
| HomePage.AbortedResponseShown | app/page.tsx:62-73 | As written, a response that completes after an abort still replaces the shown transcription |
| HomePage.SignalKeepsShown | app/page.tsx:62-73 | With the signal passed on, an abort keeps what was shown; without an abort nothing differs from the code as written |
| HomePage.AbortController.Abort | app/page.tsx:42 | Aborting sets the signal's flag |
| HomePage.Home.constructor | app/page.tsx:23-30 | The page starts with no language, no transcription, not loading, no stage, the initial stages and no controller |
| HomePage.Home.SelectLanguage | app/page.tsx:92-95 | Choosing a language sets the selected language |
| HomePage.Home.UpdateStageProgress | app/page.tsx:32-38 | The stage list becomes its update |
| HomePage.Home.OnProgress | app/page.tsx:67-70 | An event makes its stage current and sets that stage's progress |
| HomePage.Home.DeliverEvents | app/page.tsx:64-71 | Delivering the events one by one leaves the state the replay of all of them gives |
| HomePage.Home.HandleAbort | app/page.tsx:40-48 | With a controller it aborts it, drops it and resets loading, stage and stages; without one nothing changes |
| HomePage.Home.Start | app/page.tsx:57-62 | Starting sets loading, the analyzing stage at 100 and a fresh controller that is not aborted |
| HomePage.Home.Finish | app/page.tsx:80-85 | The finally block restores the idle state |
| HomePage.Home.HandleFileUpload | app/page.tsx:50-86 | Without a language only the alert results and no state changes; otherwise a completed response is shown even after an abort, a settled run ends idle, and after an abort the events that follow still update the reset display |
| HomePage.Home.HandleFileUploadWithSignal | app/page.tsx:50-86 | With the signal passed on, an aborted upload ends idle and keeps the shown transcription; otherwise it behaves as written |
| ProgressStages.FindStage | components/progress-with-stages.tsx:25 | No stage is found exactly when no id matches; otherwise the stage found is the one at the first matching index |
| ProgressStages.FindIndex | components/progress-with-stages.tsx:41-42 | The index is -1 exactly when no id matches; otherwise it is the first index whose id matches |
| ProgressStages.BarShowsCurrent | components/progress-with-stages.tsx:29 | The bar shows the progress of the first stage with the current id, and 0 when there is none |
| ProgressStages.Dots | components/progress-with-stages.tsx:35-47 | There is one dot per stage |
| ProgressStages.AllMutedWhenAbsent | components/progress-with-stages.tsx:38-45 | A current id that matches no stage leaves every dot muted |
| ProgressStages.IndexOfUnique | components/progress-with-stages.tsx:41-42 | With unique ids, the first index of a stage's id is its own index |
| ProgressStages.DotsAroundCurrent | components/progress-with-stages.tsx:38-45 | With unique ids and the current stage at index c, the dot at c is primary, those before it half-primary and those after it muted, each exactly so |
| ProgressStages.ExactlyOnePrimary | components/progress-with-stages.tsx:39-40 | With unique ids and a current stage that is present, exactly one dot is primary |
| Translations.Lookup | lib/config/translations.ts:32-122 | A key reads as absent exactly when no entry writes it; otherwise it reads as the value of some entry written for it |
| Translations.LastWritten | lib/config/translations.ts:32-122 | A key written several times reads as its last written value |
| Translations.SecondTranscribing | lib/config/translations.ts:33-120 | In each table the doubly written `transcribing` key reads as its second value |
| Translations.EnglishTranscribing | lib/config/translations.ts:59 | English `transcribing` is "Transcribing audio..." |
| Translations.HebrewTranscribing | lib/config/translations.ts:88 | Hebrew `transcribing` is "מתמלל שמע..." |
| Translations.ArabicTranscribing | lib/config/translations.ts:117 | Arabic `transcribing` is "نسخ الصوت..." |
| Translations.KeyWritten | lib/config/translations.ts:1-30 | Every key of the interface is written in the tables |
| Translations.TablesComplete | lib/config/translations.ts:32-122 | Every table gives every key a non-empty value |
| Translations.GetTranslationFallsBack | lib/config/translations.ts:124-129 | A language with a table reads from it; any other language reads the English value; the result is never empty |
| Translations.TableLanguages | lib/config/translations.ts:32-122 | Exactly English, Hebrew and Arabic have tables |
| PriceConfirmation.ChargedMinutes | components/price-confirmation.tsx:22 | The charged minutes are the started minutes: the duration exceeds one fewer minute and fits in them |
| PriceConfirmation.PriceCoversDuration | components/price-confirmation.tsx:19-24 | The price is exactly 100 + 10 per charged minute cents, and the duration part pays for the whole duration and for less than one minute more |
| PriceConfirmation.PriceMonotone | components/price-confirmation.tsx:19-24 | A longer recording never costs less; no audio costs $1.00 and up to a minute costs $1.10 |
| PriceConfirmation.FixedCentsRoundTrip | components/price-confirmation.tsx:67 | A non-negative amount is written as dollars, ".", two cent digits, and reads back exactly |
| PriceConfirmation.LabelsAgree | components/price-confirmation.tsx:63-75 | The total label reads back as the price in cents and the duration label as the price less the dollar; the confirm button is "Confirm (" + the total label + ")", and its amount reads back as the price |
| PriceConfirmation.FormatDurationFields | components/price-confirmation.tsx:26-38 | For d >= 0 the label leaves out leading zero units, its minutes and seconds lie in 0..59 without padding, and its units add up to the whole seconds |
| TimeEstimation.EstimatedSeconds | lib/utils/time-estimation.ts:5 | The estimate is the duration divided by 24, rounded up |
| TimeEstimation.EstimatedMinutes | lib/utils/time-estimation.ts:12 | The minutes are the estimate in started minutes |
| TimeEstimation.EstimateMonotone | lib/utils/time-estimation.ts:5-12 | A longer recording never gets a smaller estimate, in seconds or in minutes |
| TimeEstimation.EstimateMessages | lib/utils/time-estimation.ts:8-19 | Seconds are shown up to 1416 s of audio; "about 1 minute" appears exactly for 1416 < d <= 1440; beyond that, at least two minutes are shown |
| TimeEstimation.EstimateExamples | lib/utils/time-estimation.ts:1-20 | 0 s gives "about 0 seconds", 24 s "about 1 seconds", an hour "about 3 minutes" |
| RealMath.Floor | lib/utils/format-timestamp.ts:5 | `Math.floor` gives the greatest integer not above its argument |
| RealMath.Ceil | components/price-confirmation.tsx:22 | `Math.ceil` gives the least integer not below its argument |
| RealMath.JsRem | lib/utils/format-timestamp.ts:6 | The JavaScript remainder subtracts the floored multiple for a non-negative dividend and the ceiled multiple for a negative one |
| RealMath.ClockFields | lib/utils/format-timestamp.ts:5-7 | For t >= 0 the hours are non-negative, minutes and seconds lie in 0..59, and h*3600 + m*60 + s = floor(t) |
| RealMath.MillisField | lib/utils/file-processing.ts:33 | For t >= 0 the milliseconds lie in 0..999 and complete the whole seconds to floor(t*1000) |
| Strings.NatToString | lib/api/openai.ts:225 | `String(n)` of a non-negative integer is a non-empty digit string without leading zeros that reads back as n |
| Strings.PadStart | lib/utils/format-timestamp.ts:9 | `padStart` fills on the left up to the width, keeps the text as its suffix and never truncates |
| Strings.ZeroPad | lib/utils/format-timestamp.ts:9 | Zero-padding keeps the value, gives at least the width, and exactly the width when the number fits |

## Left out

- The `fetch` request, FormData, headers and JSON decoding are replaced by the scripted `Remote` outcomes. The API key setup and the OpenAI client construction are not part of this model.
- `translateText` and `summarizeText` are not modelled; they are calls to the remote text service.
- The routes app/api/transcribe/route.ts, app/api/translate/route.ts and app/api/summarize/route.ts are not part of this model. The first calls functions that are not shown; the other two only guard fields before remote calls.
- `convertToMp3`, `splitAudioFile`, `isVideoFile`, `isAudioFile` and `MAX_CHUNK_SIZE` are not shown. They are the fields of the `Codec` parameter, so transcoding and splitting are not modelled.
- `formatBytes` and all console logging are left out: they have no effect on results.
- `Promise.all` runs its chunks concurrently. The model runs them as an index-aligned map: the first failure by index wins, and completion order is not modelled.
- Progress events are delivered to the page after the run is computed, with an abort placed between two of them. Other interleavings of state updates with the page are not modelled. Neither are React's batching and re-rendering.
- The 2000 ms retry wait is counted rather than timed. The 2000 ms timer that clears the `copied` flag is left out.
- Numbers are exact reals, so IEEE-754 rounding is not modelled. This covers timestamps, `% 1`, prices (`1 + m * 0.1` is shown through exact cents), estimates, `toFixed` rounding and the progress percentages. `toFixed(0)` of the stage progress is not modelled.
- `String(n)` is modelled for integers only, so exponent notation for very large numbers is left out.
- TranscriptionDisplay.FormatSRT: a time whose date needs the six-digit ISO year form is reported as unmodelled rather than rendered.
- TranscriptionDisplay.SrtTimestamp: NaN and infinite times are not represented.
- YouTubeRoute.Falsy: NaN is not represented among the falsy values. A `-0` is the real 0.
- `String(url)` of an array or object is taken as given with the value.
- OpenAi.RetryUntilSettled: a chunk whose every scripted request fails at the network level is reported as still retrying (`Pending`). The source retries it without end.
- OpenAi.MergedStartsOrdered: the ordering is proved only for chunk segments that are ordered and start within their 30-minute window. Neither the service nor the code guarantees that.
- LocalStorage.TranscriptionStore.Stored: a stored JSON value that is not a list is reported as no list (`None`), rather than returned as that value. The JSON text itself is not modelled; the slot holds the parsed value.
- `Date.now()` is the `now` parameter of the save, and the failures of `localStorage` are boolean parameters.
- The two asynchronous `toBlobURL` fetches of the FFmpeg core are folded into the load's outcome. Concurrent `getFFmpeg` calls are not modelled.
- The `alert` of the page is returned as a value rather than shown.
- ProgressStages.StageLabel: a stage label is a translation key. The `t("")` of a missing stage reads as undefined (`None`).
- These UI parts are not modelled: JSX markup, clipboard writes, `saveAs` and `Blob`, components/file-upload.tsx, the language selector, splash screen, loader, header and layout.
- The Whisper configuration defaults in lib/config/whisper.ts and next.config.js are data, not behaviour.

## Findings

| source | as written | input that shows it | evidently intended | confidence | as-written member | corrected member |
|---|---|---|---|---|---|---|
| app/page.tsx:62-71 | `handleFileUpload` creates an AbortController, but its signal is never passed to `transcribeAudio`. An abort therefore resets the display, yet the later progress events still update it, and a response that completes afterwards is still shown. | An upload with a language selected; the user presses abort after the two analyzing events, and the run later completes. | An abort ends the upload with an `AbortError`. No later event reaches the page, and the shown transcription stays as it was. | not executed; the abort handling and the AbortError branch at lines 40-48 and 74-76 show the intent | HomePage.AbortedResponseShown | HomePage.Home.HandleFileUploadWithSignal |
