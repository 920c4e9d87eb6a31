/** The part of `VideoDownloader.download_video_and_audio` that reads the
    downloader tool's standard output and picks out the video (`.mp4`) and
    audio (`.m4a`) destination paths. Running the tool is not modelled: the
    captured standard output is the input. */
module VideoDownloader {
  import opened Wrappers
  import opened PyValue
  import opened PyStr

  const DestinationPrefix: string := "[download] Destination:"
  const PathSeparator: string := ": "
  const VideoSuffix: string := ".mp4"
  const AudioSuffix: string := ".m4a"

  /** The two paths the download returns. */
  datatype Paths = Paths(video: string, audio: string)

  /** The paths seen so far while scanning; `None` is Python's `None`. */
  datatype Found = Found(video: Option<string>, audio: Option<string>)

  predicate IsDestination(line: string) {
    StartsWith(line, DestinationPrefix)
  }

  /** `line.split(': ', 1)[1]`: the text after the first `": "`, verbatim;
      an `IndexError` when the line has no `": "`. */
  function PathOf(line: string): (r: Result<string, PyError>)
    ensures r.Failure? <==> !Contains(line, PathSeparator)
    ensures r.Failure? ==> r.error == IndexError
    ensures r.Success? ==>
      var at := |line| - |r.value| - |PathSeparator|;
      && 0 <= at
      && OccursAt(line, PathSeparator, at)
      && line[at + |PathSeparator|..] == r.value
      && forall j :: 0 <= j < at ==> !OccursAt(line, PathSeparator, j)
  {
    match Find(line, PathSeparator)
    case None => Failure(IndexError)
    case Some(i) => Success(line[i + |PathSeparator|..])
  }

  /** The loop over the output lines: a destination line whose path ends in
      `.mp4` replaces the video path, one ending in `.m4a` replaces the audio
      path, and the first destination line without `": "` raises. */
  function Scan(lines: seq<string>, found: Found): (r: Result<Found, PyError>)
    ensures r.Failure? ==> r.error == IndexError
    decreases |lines|
  {
    if |lines| == 0 then Success(found)
    else if !IsDestination(lines[0]) then Scan(lines[1..], found)
    else
      match PathOf(lines[0])
      case Failure(e) => Failure(e)
      case Success(p) =>
        if EndsWith(p, VideoSuffix) then Scan(lines[1..], found.(video := Some(p)))
        else if EndsWith(p, AudioSuffix) then Scan(lines[1..], found.(audio := Some(p)))
        else Scan(lines[1..], found)
  }

  /** Python truthiness of an optional string: `None` and `""` are false. */
  predicate Missing(p: Option<string>) {
    p.None? || p.value == ""
  }

  /** Lines 51-66 of `download_video_and_audio`, over the captured output. */
  function ParseDownloadOutput(stdout: string): (r: Result<Paths, PyError>)
    ensures r.Success? ==> EndsWith(r.value.video, VideoSuffix) && EndsWith(r.value.audio, AudioSuffix)
  {
    var found :- Scan(Split(stdout, "\n"), Found(None, None));
    if Missing(found.video) || Missing(found.audio) then Failure(OutputNotFound)
    else
      ScanKeepsSuffixes(Split(stdout, "\n"), Found(None, None));
      Success(Paths(found.video.value, found.audio.value))
  }

  /** Every video path the scan records ends in `.mp4` and every audio path in `.m4a`. */
  predicate WellTyped(found: Found) {
    && (found.video.Some? ==> EndsWith(found.video.value, VideoSuffix))
    && (found.audio.Some? ==> EndsWith(found.audio.value, AudioSuffix))
  }

  lemma {:induction false} ScanKeepsSuffixes(lines: seq<string>, found: Found)
    requires WellTyped(found)
    ensures Scan(lines, found).Success? ==> WellTyped(Scan(lines, found).value)
    decreases |lines|
  {
    if |lines| > 0 {
      var rest := lines[1..];
      if !IsDestination(lines[0]) {
        ScanKeepsSuffixes(rest, found);
      } else if PathOf(lines[0]).Success? {
        var p := PathOf(lines[0]).value;
        if EndsWith(p, VideoSuffix) {
          ScanKeepsSuffixes(rest, found.(video := Some(p)));
        } else if EndsWith(p, AudioSuffix) {
          ScanKeepsSuffixes(rest, found.(audio := Some(p)));
        } else {
          ScanKeepsSuffixes(rest, found);
        }
      }
    }
  }

  // ---------------------------------------------------------------------
  // An independent description of the parse: which lines count, which path
  // wins, and when it fails.

  /** Some destination line has no `": "`. */
  predicate HasMalformedDestination(lines: seq<string>) {
    exists k | 0 <= k < |lines| :: IsDestination(lines[k]) && !Contains(lines[k], PathSeparator)
  }

  /** The paths of the well-formed destination lines, in output order. */
  function DestinationPaths(lines: seq<string>): seq<string> {
    if |lines| == 0 then []
    else if IsDestination(lines[0]) && PathOf(lines[0]).Success? then
      [PathOf(lines[0]).value] + DestinationPaths(lines[1..])
    else DestinationPaths(lines[1..])
  }

  /** The last of `paths` that ends in `suffix`. */
  function LastWithSuffix(paths: seq<string>, suffix: string): (r: Option<string>)
    ensures r.None? <==> forall k :: 0 <= k < |paths| ==> !EndsWith(paths[k], suffix)
    ensures r.Some? ==>
      (exists k :: 0 <= k < |paths| && paths[k] == r.value && EndsWith(r.value, suffix)
        && forall k' :: k < k' < |paths| ==> !EndsWith(paths[k'], suffix))
  {
    if |paths| == 0 then None
    else
      var later := LastWithSuffix(paths[1..], suffix);
      if later.Some? then
        ghost var k :| 0 <= k < |paths[1..]| && paths[1..][k] == later.value && EndsWith(later.value, suffix)
          && forall k' :: k < k' < |paths[1..]| ==> !EndsWith(paths[1..][k'], suffix);
        assert paths[k + 1] == later.value;
        later
      else if EndsWith(paths[0], suffix) then Some(paths[0])
      else None
  }

  /** The result the parse must produce for the given output lines. */
  function ExpectedParse(lines: seq<string>): Result<Paths, PyError> {
    if HasMalformedDestination(lines) then Failure(IndexError)
    else
      var video := LastWithSuffix(DestinationPaths(lines), VideoSuffix);
      var audio := LastWithSuffix(DestinationPaths(lines), AudioSuffix);
      if video.None? || audio.None? then Failure(OutputNotFound)
      else Success(Paths(video.value, audio.value))
  }

  /** A path cannot end in both suffixes, so the `elif` loses nothing. */
  lemma SuffixesExclusive(p: string)
    ensures !(EndsWith(p, VideoSuffix) && EndsWith(p, AudioSuffix))
  {
  }

  /** A newer candidate, if there is one, replaces the old value. */
  function Latest(current: Option<string>, newer: Option<string>): Option<string> {
    if newer.Some? then newer else current
  }

  /** The path `p` as a candidate for the kind whose paths end in `suffix`. */
  function Candidate(p: string, suffix: string): Option<string> {
    if EndsWith(p, suffix) then Some(p) else None
  }

  /** What the scan should leave after the lines, starting from `found`. */
  function ScanReference(lines: seq<string>, found: Found): Result<Found, PyError> {
    if HasMalformedDestination(lines) then Failure(IndexError)
    else Success(Found(
      Latest(found.video, LastWithSuffix(DestinationPaths(lines), VideoSuffix)),
      Latest(found.audio, LastWithSuffix(DestinationPaths(lines), AudioSuffix))))
  }

  /** The found paths after one well-formed destination with path `p`. */
  function Record(found: Found, p: string): Found {
    Found(Latest(found.video, Candidate(p, VideoSuffix)), Latest(found.audio, Candidate(p, AudioSuffix)))
  }

  /** `Record` is the `if`/`elif` of the loop body. */
  lemma RecordIsBranch(found: Found, p: string)
    ensures Record(found, p) ==
      if EndsWith(p, VideoSuffix) then found.(video := Some(p))
      else if EndsWith(p, AudioSuffix) then found.(audio := Some(p))
      else found
  {
    SuffixesExclusive(p);
  }

  lemma MalformedCons(lines: seq<string>)
    requires |lines| > 0
    ensures HasMalformedDestination(lines) <==>
      (IsDestination(lines[0]) && !Contains(lines[0], PathSeparator)) || HasMalformedDestination(lines[1..])
  {
    var rest := lines[1..];
    if HasMalformedDestination(rest) {
      var k :| 0 <= k < |rest| && IsDestination(rest[k]) && !Contains(rest[k], PathSeparator);
      assert lines[k + 1] == rest[k];
    }
    if HasMalformedDestination(lines) {
      var k :| 0 <= k < |lines| && IsDestination(lines[k]) && !Contains(lines[k], PathSeparator);
      if k > 0 {
        assert rest[k - 1] == lines[k];
      }
    }
  }

  lemma LastWithSuffixCons(p: string, rest: seq<string>, suffix: string)
    ensures LastWithSuffix([p] + rest, suffix) == Latest(Candidate(p, suffix), LastWithSuffix(rest, suffix))
  {
    assert ([p] + rest)[1..] == rest;
  }

  /** The reference after a well-formed destination line is the reference
      for the remaining lines, starting from the recorded path. */
  lemma ReferenceCons(lines: seq<string>, found: Found)
    requires |lines| > 0 && IsDestination(lines[0]) && PathOf(lines[0]).Success?
    ensures ScanReference(lines, found) == ScanReference(lines[1..], Record(found, PathOf(lines[0]).value))
  {
    var p := PathOf(lines[0]).value;
    var rest := lines[1..];
    MalformedCons(lines);
    assert DestinationPaths(lines) == [p] + DestinationPaths(rest);
    LastWithSuffixCons(p, DestinationPaths(rest), VideoSuffix);
    LastWithSuffixCons(p, DestinationPaths(rest), AudioSuffix);
  }

  /** A line that is not a destination leaves the reference unchanged. */
  lemma ReferenceSkip(lines: seq<string>, found: Found)
    requires |lines| > 0 && !IsDestination(lines[0])
    ensures ScanReference(lines, found) == ScanReference(lines[1..], found)
  {
    MalformedCons(lines);
  }

  /** The scan equals the reference: it fails with `IndexError` when some
      destination line lacks `": "`, and otherwise the last `.mp4` and the
      last `.m4a` destinations replace the starting values. */
  lemma {:induction false} ScanMatchesReference(lines: seq<string>, found: Found)
    ensures Scan(lines, found) == ScanReference(lines, found)
    decreases |lines|
  {
    if |lines| > 0 {
      if !IsDestination(lines[0]) {
        ReferenceSkip(lines, found);
        ScanMatchesReference(lines[1..], found);
      } else if PathOf(lines[0]).Success? {
        var p := PathOf(lines[0]).value;
        ReferenceCons(lines, found);
        RecordIsBranch(found, p);
        ScanMatchesReference(lines[1..], Record(found, p));
      } else {
        MalformedCons(lines);
      }
    }
  }

  /** The parse equals the reference: it fails with `IndexError` when some
      destination line lacks `": "`; otherwise the last `.mp4` destination
      is the video path and the last `.m4a` destination the audio path, and
      it fails with `OutputNotFound` when either is absent. Lines that are
      not destination lines play no part. */
  lemma ParseMatchesReference(stdout: string)
    ensures ParseDownloadOutput(stdout) == ExpectedParse(Split(stdout, "\n"))
  {
    var lines := Split(stdout, "\n");
    ScanMatchesReference(lines, Found(None, None));
    var paths := DestinationPaths(lines);
    var video := LastWithSuffix(paths, VideoSuffix);
    var audio := LastWithSuffix(paths, AudioSuffix);
    if video.Some? {
      assert |video.value| >= |VideoSuffix|;
    }
    if audio.Some? {
      assert |audio.value| >= |AudioSuffix|;
    }
  }

  /** The output the tool prints for one video and one audio download. */
  function DestinationLine(path: string): string {
    DestinationPrefix + " " + path
  }

  function RenderOutput(p: Paths): string {
    DestinationLine(p.video) + "\n" + DestinationLine(p.audio) + "\n"
  }

  /** In a destination line the first `": "` is the one right after the
      prefix, so the path comes back verbatim even when it holds `": "`. */
  lemma PathOfDestinationLine(path: string)
    ensures PathOf(DestinationLine(path)) == Success(path)
  {
    var line := DestinationLine(path);
    var at := |DestinationPrefix| - 1;
    assert at == 22;
    assert line[..at + 1] == DestinationPrefix;
    assert line[at] == ':' && line[at + 1] == ' ';
    assert OccursAt(line, PathSeparator, at);
    forall j | 0 <= j < at ensures !OccursAt(line, PathSeparator, j) {
      assert line[j] == DestinationPrefix[j];
      assert DestinationPrefix[j] != ':';
    }
    assert Find(line, PathSeparator) == Some(at);
    assert line[at + 2..] == path;
  }

  /** The printed output splits into the two destination lines and the
      empty text after the final newline. */
  lemma RenderedLines(p: Paths)
    requires '\n' !in p.video && '\n' !in p.audio
    ensures Split(RenderOutput(p), "\n") == [DestinationLine(p.video), DestinationLine(p.audio), ""]
  {
    var l1 := DestinationLine(p.video);
    var l2 := DestinationLine(p.audio);
    assert '\n' !in DestinationPrefix;
    assert '\n' !in l1 && '\n' !in l2;
    var lines := [l1, l2, ""];
    assert Join(lines, "\n") == RenderOutput(p) by {
      assert lines[1..][1..] == [""];
      assert Join(lines[1..], "\n") == l2 + "\n" + "";
    }
    SplitJoin(lines, '\n');
  }

  /** The scan consumes a printed destination line by recording its path. */
  lemma ScanDestinationLine(lines: seq<string>, path: string, found: Found)
    requires |lines| > 0 && lines[0] == DestinationLine(path)
    ensures Scan(lines, found) ==
      if EndsWith(path, VideoSuffix) then Scan(lines[1..], found.(video := Some(path)))
      else if EndsWith(path, AudioSuffix) then Scan(lines[1..], found.(audio := Some(path)))
      else Scan(lines[1..], found)
  {
    PathOfDestinationLine(path);
    assert lines[0][..|DestinationPrefix|] == DestinationPrefix;
  }

  /** Parsing the output printed for a video and an audio path gives back
      exactly those paths. */
  lemma ParseRenderRoundTrip(p: Paths)
    requires EndsWith(p.video, VideoSuffix) && EndsWith(p.audio, AudioSuffix)
    requires '\n' !in p.video && '\n' !in p.audio
    ensures ParseDownloadOutput(RenderOutput(p)) == Success(p)
  {
    var lines := [DestinationLine(p.video), DestinationLine(p.audio), ""];
    RenderedLines(p);
    SuffixesExclusive(p.audio);
    var afterVideo := Found(Some(p.video), None);
    var afterAudio := Found(Some(p.video), Some(p.audio));
    ScanDestinationLine(lines, p.video, Found(None, None));
    ScanDestinationLine(lines[1..], p.audio, afterVideo);
    assert lines[1..][1..] == [""];
    assert Scan(lines, Found(None, None)) == Success(afterAudio);
    assert |p.video| >= |VideoSuffix| && |p.audio| >= |AudioSuffix|;
    assert !Missing(afterAudio.video) && !Missing(afterAudio.audio);
  }
}
