/**
 * The transcript records exchanged with the speech-to-text service and the
 * display components (lib/config/whisper.ts), and the response shape with
 * numeric segment ids used by the SRT writer and the YouTube route
 * (lib/types.ts). Times are seconds, as exact reals.
 */
module Whisper {
  import opened Wrappers

  /** A browser `File`, as far as the code looks at it: name, size in bytes and MIME type. */
  datatype MediaFile = MediaFile(name: string, size: nat, mimeType: string)

  /** One timed phrase of a transcript; `id` is whatever id the service sent, as text. */
  datatype WhisperSegment = WhisperSegment(id: string, start: real, end: real, text: string)

  /** A whole transcript: the full text and its timed segments, in order. */
  datatype WhisperResponse = WhisperResponse(text: string, segments: seq<WhisperSegment>)

  /** A timed phrase whose id is a number. */
  datatype TranscriptionSegment = TranscriptionSegment(id: int, start: real, end: real, text: string)

  /** A transcript whose segment list and language are optional fields. */
  datatype TranscriptionResponse = TranscriptionResponse(
    text: string,
    segments: Option<seq<TranscriptionSegment>>,
    language: Option<string>)
}
