/**
 * app/api/transcribe/youtube/route.ts: the POST handler that checks the
 * `url` field of the request against the YouTube pattern
 * `^(https?://)?(www\.)?(youtube\.com|youtu\.be)/.+$` and answers with a
 * fixed sample transcription.
 */
module YouTubeRoute {
  import opened Wrappers
  import opened Strings
  import opened Whisper

  // ---------------------------------------------------------------- pattern

  /** The characters a JavaScript `.` does not match. */
  predicate IsLineTerminator(c: char) {
    c == '\n' || c == '\r' || c == '\U{2028}' || c == '\U{2029}'
  }

  predicate NoLineTerminators(s: string) {
    forall i :: 0 <= i < |s| ==> !IsLineTerminator(s[i])
  }

  predicate StartsWith(s: string, p: string) {
    |p| <= |s| && s[..|p|] == p
  }

  /** The alternatives of the three groups, as the pattern lists them. */
  const Schemes: seq<string> := ["", "http://", "https://"]
  const Subdomains: seq<string> := ["", "www."]
  const Hosts: seq<string> := ["youtube.com", "youtu.be"]

  /** `s` is scheme, subdomain and host, a slash, and a non-empty single-line rest. */
  predicate Decomposes(s: string, scheme: string, subdomain: string, host: string) {
    var head := scheme + (subdomain + (host + "/"));
    StartsWith(s, head) && |s| > |head| && NoLineTerminators(s[|head|..])
  }

  /** What the regular expression accepts, read off its grammar. */
  predicate PatternAccepts(s: string) {
    exists i, j, k | 0 <= i < |Schemes| && 0 <= j < |Subdomains| && 0 <= k < |Hosts|
      :: Decomposes(s, Schemes[i], Subdomains[j], Hosts[k])
  }

  /** How much of `s` the optional `https?://` group takes. */
  function SchemeLength(s: string): (n: nat)
    ensures n <= |s|
  {
    if StartsWith(s, "https://") then 8 else if StartsWith(s, "http://") then 7 else 0
  }

  /** How much of `s` the optional `www\.` group takes. */
  function SubdomainLength(s: string): (n: nat)
    ensures n <= |s|
  {
    if StartsWith(s, "www.") then 4 else 0
  }

  /** How much of `s` the host group takes; 0 when neither host is there. */
  function HostLength(s: string): (n: nat)
    ensures n <= |s|
  {
    if StartsWith(s, "youtube.com") then 11 else if StartsWith(s, "youtu.be") then 8 else 0
  }

  /** `youtubeRegex.test(s)`, one group after the other without backtracking. */
  predicate MatchesYouTube(s: string) {
    var afterScheme := s[SchemeLength(s)..];
    var afterSubdomain := afterScheme[SubdomainLength(afterScheme)..];
    var hostLength := HostLength(afterSubdomain);
    var rest := afterSubdomain[hostLength..];
    hostLength > 0 && |rest| >= 2 && rest[0] == '/' && NoLineTerminators(rest[1..])
  }

  lemma StartsWithConcat(s: string, p: string, q: string)
    requires StartsWith(s, p) && StartsWith(s[|p|..], q)
    ensures StartsWith(s, p + q)
  {
    assert s[..|p + q|] == s[..|p|] + s[|p|..][..|q|];
  }

  lemma StartsWithSplit(s: string, p: string, q: string)
    requires StartsWith(s, p + q)
    ensures StartsWith(s, p) && StartsWith(s[|p|..], q)
  {
    assert s[..|p|] == (p + q)[..|p|];
    assert s[|p|..][..|q|] == (p + q)[|p|..];
  }

  /** The scheme a decomposition uses is the one the matcher takes. */
  lemma SchemeDetermined(s: string, i: int, rest: string)
    requires 0 <= i < |Schemes| && StartsWith(s, Schemes[i] + rest)
    requires |rest| >= 1 && (rest[0] == 'w' || rest[0] == 'y')
    ensures SchemeLength(s) == |Schemes[i]|
  {
    StartsWithSplit(s, Schemes[i], rest);
    assert s[|Schemes[i]|] == rest[0] by {
      assert s[|Schemes[i]|..][..|rest|] == rest;
    }
    if i == 0 {
      assert s[0] != 'h';
      assert !StartsWith(s, "https://") && !StartsWith(s, "http://") by {
        if |s| >= 7 { assert s[..7][0] == s[0]; }
      }
    } else if i == 1 {
      assert s[..7] == "http://";
      assert s[4] == ':';
      assert !StartsWith(s, "https://") by {
        if |s| >= 8 { assert s[..8][4] == s[4]; }
      }
    }
  }

  /** The subdomain a decomposition uses is the one the matcher takes. */
  lemma SubdomainDetermined(t: string, j: int, rest: string)
    requires 0 <= j < |Subdomains| && StartsWith(t, Subdomains[j] + rest)
    requires |rest| >= 1 && rest[0] == 'y'
    ensures SubdomainLength(t) == |Subdomains[j]|
  {
    StartsWithSplit(t, Subdomains[j], rest);
    assert t[|Subdomains[j]|] == rest[0] by {
      assert t[|Subdomains[j]|..][..|rest|] == rest;
    }
    if j == 0 {
      assert !StartsWith(t, "www.") by {
        if |t| >= 4 { assert t[..4][0] == t[0]; }
      }
    }
  }

  /** The host a decomposition uses is the one the matcher takes. */
  lemma HostDetermined(u: string, k: int, rest: string)
    requires 0 <= k < |Hosts| && StartsWith(u, Hosts[k] + rest)
    ensures HostLength(u) == |Hosts[k]|
  {
    StartsWithSplit(u, Hosts[k], rest);
    if k == 1 {
      assert u[..8] == "youtu.be";
      assert u[5] == '.';
      assert !StartsWith(u, "youtube.com") by {
        if |u| >= 11 { assert u[..11][5] == u[5]; }
      }
    }
  }

  /** What the matcher accepts, the grammar accepts. */
  lemma MatcherSound(s: string)
    requires MatchesYouTube(s)
    ensures PatternAccepts(s)
  {
    var i := SchemeTaken(s);
    var t := s[|Schemes[i]|..];
    var j := SubdomainTaken(t);
    var u := t[|Subdomains[j]|..];
    var k := HostTaken(u);
    var v := u[|Hosts[k]|..];
    assert StartsWith(v, "/") by { assert v[..1] == [v[0]]; }
    Chain(s, Schemes[i], Subdomains[j], Hosts[k], v);
    assert Decomposes(s, Schemes[i], Subdomains[j], Hosts[k]);
  }

  /** The alternative of the scheme group the matcher takes. */
  lemma SchemeTaken(s: string) returns (i: int)
    ensures 0 <= i < |Schemes| && StartsWith(s, Schemes[i]) && |Schemes[i]| == SchemeLength(s)
  {
    i := if SchemeLength(s) == 8 then 2 else if SchemeLength(s) == 7 then 1 else 0;
  }

  /** The alternative of the subdomain group the matcher takes. */
  lemma SubdomainTaken(t: string) returns (j: int)
    ensures 0 <= j < |Subdomains| && StartsWith(t, Subdomains[j]) && |Subdomains[j]| == SubdomainLength(t)
  {
    j := if SubdomainLength(t) == 4 then 1 else 0;
  }

  /** The alternative of the host group the matcher takes, when it takes one. */
  lemma HostTaken(u: string) returns (k: int)
    requires HostLength(u) > 0
    ensures 0 <= k < |Hosts| && StartsWith(u, Hosts[k]) && |Hosts[k]| == HostLength(u)
  {
    k := if HostLength(u) == 11 then 0 else 1;
  }

  /** Three groups taken one after the other make the head of the string. */
  lemma Chain(s: string, p: string, w: string, h: string, v: string)
    requires StartsWith(s, p) && StartsWith(s[|p|..], w) && StartsWith(s[|p|..][|w|..], h)
    requires v == s[|p|..][|w|..][|h|..] && StartsWith(v, "/")
    ensures StartsWith(s, p + (w + (h + "/"))) && s[|p + (w + (h + "/"))|..] == v[1..]
  {
    var t := s[|p|..];
    var u := t[|w|..];
    StartsWithConcat(u, h, "/");
    StartsWithConcat(t, w, h + "/");
    StartsWithConcat(s, p, w + (h + "/"));
  }

  /** What the grammar accepts, the matcher accepts: each group's choice is forced. */
  lemma MatcherComplete(s: string)
    requires PatternAccepts(s)
    ensures MatchesYouTube(s)
  {
    var i, j, k :| 0 <= i < |Schemes| && 0 <= j < |Subdomains| && 0 <= k < |Hosts|
                   && Decomposes(s, Schemes[i], Subdomains[j], Hosts[k]);
    GroupsForced(s, i, j, k);
    MatchFromDecomposition(s, Schemes[i], Subdomains[j], Hosts[k]);
  }

  /** A decomposition whose groups are the ones the matcher takes is a match. */
  lemma MatchFromDecomposition(s: string, p: string, w: string, h: string)
    requires Decomposes(s, p, w, h) && |h| > 0
    requires SchemeLength(s) == |p| && SubdomainLength(s[|p|..]) == |w| && HostLength(s[|p|..][|w|..]) == |h|
    requires |s[|p|..][|w|..][|h|..]| >= 1 && s[|p|..][|w|..][|h|..][0] == '/'
    ensures MatchesYouTube(s)
  {
    Drops(s, |p|, |w|, |h|);
    MatchFromGroups(s, |p|, |w|, |h|);
  }

  /** The three groups of a decomposition are the ones the matcher takes, followed by the slash. */
  lemma GroupsForced(s: string, i: int, j: int, k: int)
    requires 0 <= i < |Schemes| && 0 <= j < |Subdomains| && 0 <= k < |Hosts|
    requires StartsWith(s, Schemes[i] + (Subdomains[j] + (Hosts[k] + "/")))
    ensures var p, w, h := Schemes[i], Subdomains[j], Hosts[k];
            SchemeLength(s) == |p| && SubdomainLength(s[|p|..]) == |w| && HostLength(s[|p|..][|w|..]) == |h|
            && |s[|p|..][|w|..][|h|..]| >= 1 && s[|p|..][|w|..][|h|..][0] == '/'
  {
    var p, w, h := Schemes[i], Subdomains[j], Hosts[k];
    SchemeDetermined(s, i, w + (h + "/"));
    StartsWithSplit(s, p, w + (h + "/"));
    SubdomainForced(s[|p|..], j, k);
  }

  lemma SubdomainForced(t: string, j: int, k: int)
    requires 0 <= j < |Subdomains| && 0 <= k < |Hosts|
    requires StartsWith(t, Subdomains[j] + (Hosts[k] + "/"))
    ensures var w, h := Subdomains[j], Hosts[k];
            SubdomainLength(t) == |w| && HostLength(t[|w|..]) == |h|
            && |t[|w|..][|h|..]| >= 1 && t[|w|..][|h|..][0] == '/'
  {
    var w, h := Subdomains[j], Hosts[k];
    SubdomainDetermined(t, j, h + "/");
    StartsWithSplit(t, w, h + "/");
    HostForced(t[|w|..], k);
  }

  lemma HostForced(u: string, k: int)
    requires 0 <= k < |Hosts| && StartsWith(u, Hosts[k] + "/")
    ensures HostLength(u) == |Hosts[k]| && |u[|Hosts[k]|..]| >= 1 && u[|Hosts[k]|..][0] == '/'
  {
    HostDetermined(u, k, "/");
    StartsWithSplit(u, Hosts[k], "/");
    assert u[|Hosts[k]|..][..1] == "/";
  }

  lemma Drops(s: string, a: nat, b: nat, c: nat)
    requires a + b + c + 1 <= |s|
    ensures s[a..][b..][c..][1..] == s[a + b + c + 1..]
  {
  }

  lemma MatchFromGroups(s: string, a: nat, b: nat, c: nat)
    requires a + b + c + 1 < |s|
    requires a == SchemeLength(s) && b == SubdomainLength(s[a..]) && c == HostLength(s[a..][b..]) && c > 0
    requires s[a..][b..][c..][0] == '/' && NoLineTerminators(s[a + b + c + 1..])
    requires s[a..][b..][c..][1..] == s[a + b + c + 1..]
    ensures MatchesYouTube(s)
  {
  }

  /** The matcher accepts exactly what the pattern's grammar describes. */
  lemma MatcherIsPattern(s: string)
    ensures MatchesYouTube(s) <==> PatternAccepts(s)
  {
    if MatchesYouTube(s) {
      MatcherSound(s);
    }
    if PatternAccepts(s) {
      MatcherComplete(s);
    }
  }

  // ---------------------------------------------------------------- handler

  /**
   * The `url` field as the handler receives it from `request.json()`. An
   * array or object is carried with the string `String(url)` turns it into.
   */
  datatype UrlField =
    | Missing
    | Null
    | Boolean(flag: bool)
    | Number(number: real)
    | Text(text: string)
    | Composite(asString: string)

  /**
   * The request body: not JSON (the parse throws), JSON `null` (destructuring
   * throws), or a value whose `url` property is read (a primitive has none).
   */
  datatype RequestBody = Unparsable | NullBody | Value(url: UrlField)

  /** `!url` */
  predicate Falsy(url: UrlField) {
    url == Missing || url == Null || url == Boolean(false) || url == Number(0.0) || url == Text("")
  }

  /**
   * `youtubeRegex.test(url)`, which first turns the value into a string. The
   * string of a boolean or a number holds no slash, so neither can match.
   */
  predicate UrlMatches(url: UrlField) {
    match url
    case Text(s) => MatchesYouTube(s)
    case Composite(s) => MatchesYouTube(s)
    case _ => false
  }

  /** The sample transcription, with the two fields it adds to the response type. */
  datatype Sample = Sample(transcription: TranscriptionResponse, confidence: real, duration: real)

  /** The sample's full text. */
  const SampleText: string := "This is a sample transcription of the YouTube video."

  const SampleSegments: seq<TranscriptionSegment> := [
    TranscriptionSegment(1, 0.0, 3.5, "This is a sample"),
    TranscriptionSegment(2, 3.5, 6.0, "transcription of the"),
    TranscriptionSegment(3, 6.0, 8.5, "YouTube video.")
  ]

  const MockTranscription: Sample :=
    Sample(TranscriptionResponse(SampleText, Some(SampleSegments), Some("en")), 0.95, 180.0)

  /** The JSON reply: `success`, then either `transcription` or `error`. */
  datatype Reply = Reply(status: nat, success: bool, error: Option<string>, transcription: Option<Sample>)

  function FailureReply(status: nat, error: string): Reply {
    Reply(status, false, Some(error), None)
  }

  const NoUrlError: string := "No YouTube URL provided"
  const InvalidUrlError: string := "Invalid YouTube URL"
  const ProcessingError: string := "Failed to process YouTube video"

  /** `POST` */
  function Post(body: RequestBody): Reply {
    match body
    case Unparsable => FailureReply(500, ProcessingError)
    case NullBody => FailureReply(500, ProcessingError)
    case Value(url) =>
      if Falsy(url) then FailureReply(400, NoUrlError)
      else if !UrlMatches(url) then FailureReply(400, InvalidUrlError)
      else Reply(200, true, None, Some(MockTranscription))
  }

  /**
   * The four outcomes of the handler: a body that cannot be read is a 500, a
   * missing or empty `url` a 400 "No YouTube URL provided", a `url` the
   * pattern rejects a 400 "Invalid YouTube URL", and only a `url` the pattern
   * accepts gets the 200 with the sample. `success` holds exactly on the 200,
   * and exactly one of `error` and `transcription` is present.
   */
  lemma PostOutcomes(body: RequestBody)
    ensures Post(body).status == 500 <==> body == Unparsable || body == NullBody
    ensures Post(body).status == 500 ==> Post(body).error == Some(ProcessingError)
    ensures Post(body).status == 400 && Post(body).error == Some(NoUrlError) <==> body.Value? && Falsy(body.url)
    ensures Post(body).status == 400 && Post(body).error == Some(InvalidUrlError)
            <==> body.Value? && !Falsy(body.url) && !UrlMatches(body.url)
    ensures Post(body).status == 200 <==> body.Value? && !Falsy(body.url) && UrlMatches(body.url)
    ensures Post(body).status == 200 ==> Post(body).transcription == Some(MockTranscription)
    ensures Post(body).success <==> Post(body).status == 200
    ensures Post(body).error.Some? <==> Post(body).transcription.None?
  {
  }

  /** A text `url` is accepted exactly when it has the pattern's shape. */
  lemma TextUrlAccepted(url: string)
    requires url != ""
    ensures Post(Value(Text(url))).status == 200 <==> PatternAccepts(url)
  {
    MatcherIsPattern(url);
  }

  /**
   * The sample is consistent: segments numbered 1, 2, 3, each starting where
   * the previous one ends, from 0 to 8.5 seconds.
   */
  lemma SampleConsistent()
    ensures forall i :: 0 <= i < |SampleSegments| ==> SampleSegments[i].id == i + 1
    ensures forall i :: 0 < i < |SampleSegments| ==> SampleSegments[i].start == SampleSegments[i - 1].end
    ensures forall i :: 0 <= i < |SampleSegments| ==> SampleSegments[i].start < SampleSegments[i].end
    ensures SampleSegments[0].start == 0.0 && SampleSegments[|SampleSegments| - 1].end == 8.5
  {
  }

  /** The texts of the sample segments, joined by spaces, give the full text. */
  lemma SampleTextJoined()
    ensures Join(SegmentTexts(SampleSegments), " ") == SampleText
  {
    var a, b, c := "This is a sample", "transcription of the", "YouTube video.";
    assert SegmentTexts(SampleSegments) == [a, b, c];
    JoinThree(a, b, c, " ");
    SampleTextSpelled();
  }

  lemma SampleTextSpelled()
    ensures "This is a sample" + " " + "transcription of the" + " " + "YouTube video." == SampleText
  {
  }

  lemma JoinThree(a: string, b: string, c: string, sep: string)
    ensures Join([a, b, c], sep) == a + sep + b + sep + c
  {
    assert [a, b, c][1..] == [b, c];
    assert [b, c][1..] == [c];
    assert Join([b, c], sep) == b + sep + c;
    assert Join([a, b, c], sep) == a + sep + (b + sep + c);
  }

  function SegmentTexts(segments: seq<TranscriptionSegment>): (texts: seq<string>)
    ensures |texts| == |segments|
  {
    seq(|segments|, i requires 0 <= i < |segments| => segments[i].text)
  }

  /** A typical watch link passes. */
  lemma WatchLinkAccepted()
    ensures MatchesYouTube("https://www.youtube.com/watch?v=x")
  {
    Accepts(2, 1, 0, "watch?v=x");
    assert Schemes[2] == "https://" && Subdomains[1] == "www." && Hosts[0] == "youtube.com";
    WatchLinkSpelled();
  }

  lemma WatchLinkSpelled()
    ensures "https://www.youtube.com/watch?v=x" == "https://" + ("www." + ("youtube.com" + ("/" + "watch?v=x")))
  {
  }

  /** A bare host with nothing after the slash does not. */
  lemma BareHostRejected()
    ensures !MatchesYouTube("youtube.com/")
  {
    var s := "youtube.com/";
    assert s[..8][0] != "https://"[0] && s[..7][0] != "http://"[0] && s[..4][0] != "www."[0];
    assert s[..11] == "youtube.com";
    Rejects(s, 0, 0, 11);
  }

  /** A host the pattern does not list is rejected, even with a listed host inside it. */
  lemma MobileHostRejected()
    ensures !MatchesYouTube("https://m.youtube.com/x")
  {
    var s := "https://m.youtube.com/x";
    assert s[..8] == "https://";
    var t := s[8..];
    assert t[..4][0] != "www."[0];
    assert t[..11][0] != "youtube.com"[0] && t[..8][0] != "youtu.be"[0];
    Rejects(s, 8, 0, 0);
  }

  /** The short host with nothing after the slash is rejected. */
  lemma ShortHostBareRejected()
    ensures !MatchesYouTube("youtu.be/")
  {
    var s := "youtu.be/";
    assert s[..8][0] != "https://"[0] && s[..7][0] != "http://"[0] && s[..4][0] != "www."[0];
    assert s[..8] == "youtu.be";
    Rejects(s, 0, 0, 8);
  }

  lemma Accepts(i: int, j: int, k: int, rest: string)
    requires 0 <= i < |Schemes| && 0 <= j < |Subdomains| && 0 <= k < |Hosts|
    requires |rest| >= 1 && NoLineTerminators(rest)
    ensures MatchesYouTube(Schemes[i] + (Subdomains[j] + (Hosts[k] + ("/" + rest))))
  {
    var p, w, h := Schemes[i], Subdomains[j], Hosts[k];
    var s := p + (w + (h + ("/" + rest)));
    var head := p + (w + (h + "/"));
    assert s[..|head|] == head && s[|head|..] == rest;
    assert Decomposes(s, p, w, h);
    MatcherComplete(s);
  }

  lemma Rejects(s: string, a: nat, b: nat, c: nat)
    requires a == SchemeLength(s) && b == SubdomainLength(s[a..]) && c == HostLength(s[a..][b..])
    requires c == 0 || |s[a..][b..][c..]| < 2
    ensures !MatchesYouTube(s)
  {
  }
}
