/** `MetadataChunker.chunk_transcript` and `chunk_scenes`: join the records'
    texts with single spaces, hand the text to the splitter, and give each
    chunk the record at its running word count. The splitter
    (`RecursiveCharacterTextSplitter.create_documents`) is an oracle
    `split: string -> seq<string>` returning the chunks' page contents. */
module MetadataChunker {
  import opened Wrappers
  import opened Arith
  import opened PyValue
  import opened PyStr

  const SentenceSeparator: string := ". "

  /** Every item has `key`, bound to a string. */
  predicate AllStrings(items: seq<Dict>, key: string) {
    forall i :: 0 <= i < |items| ==> key in items[i] && items[i][key].Str?
  }

  /** The strings bound to `key`, in item order. */
  function FieldTexts(items: seq<Dict>, key: string): (texts: seq<string>)
    requires AllStrings(items, key)
    ensures |texts| == |items|
    ensures forall i :: 0 <= i < |items| ==> Str(texts[i]) == items[i][key]
  {
    seq(|items|, i requires 0 <= i < |items| => items[i][key].s)
  }

  /** Total word count of `chunks`. */
  function SumWords(chunks: seq<string>): nat {
    if |chunks| == 0 then 0 else WordCount(chunks[0]) + SumWords(chunks[1..])
  }

  /** The word count of several texts is the length of their concatenated words. */
  lemma {:induction false} SumWordsConcat(texts: seq<string>)
    ensures SumWords(texts) == |ConcatWords(texts)|
    decreases |texts|
  {
    if |texts| > 0 {
      SumWordsConcat(texts[1..]);
    }
  }

  /** `" ".join([item[key] for item in items])`: the list is built first, so
      a missing key raises `KeyError` before a non-string raises `TypeError`.
      The joined text has exactly the items' words, in item order, so the
      running word count the chunk loop keeps counts the same words. */
  function JoinField(items: seq<Dict>, key: string): (r: Result<string, PyError>)
    ensures r.Success? <==> AllStrings(items, key)
    ensures r.Failure? ==>
      r.error == (if exists i :: 0 <= i < |items| && key !in items[i] then KeyError(key) else TypeError)
    ensures r.Success? ==> r.value == Join(FieldTexts(items, key), " ")
    ensures r.Success? ==> Words(r.value) == ConcatWords(FieldTexts(items, key))
    ensures r.Success? ==> WordCount(r.value) == SumWords(FieldTexts(items, key))
  {
    if exists i :: 0 <= i < |items| && key !in items[i] then Failure(KeyError(key))
    else if !AllStrings(items, key) then Failure(TypeError)
    else
      WordsOfJoin(FieldTexts(items, key));
      SumWordsConcat(FieldTexts(items, key));
      Success(Join(FieldTexts(items, key), " "))
  }

  /** The start index the loop assigns to chunk `i`: the words in the chunks before it. */
  function StartIndex(chunks: seq<string>, i: nat): nat
    requires i <= |chunks|
  {
    SumWords(chunks[..i])
  }

  lemma SumWordsAppend(chunks: seq<string>, c: string)
    ensures SumWords(chunks + [c]) == SumWords(chunks) + WordCount(c)
  {
    if |chunks| > 0 {
      assert (chunks + [c])[1..] == chunks[1..] + [c];
      SumWordsAppend(chunks[1..], c);
    }
  }

  /** Each start index is the previous start plus the previous chunk's word
      count, so one chunk's end index is the next chunk's start index. */
  lemma {:induction false} StartIndexStep(chunks: seq<string>, i: nat)
    requires i < |chunks|
    ensures StartIndex(chunks, i + 1) == StartIndex(chunks, i) + WordCount(chunks[i])
  {
    assert chunks[..i + 1] == chunks[..i] + [chunks[i]];
    SumWordsAppend(chunks[..i], chunks[i]);
  }

  lemma StartIndexShift(chunks: seq<string>, i: nat)
    requires 0 < |chunks| && i < |chunks|
    ensures StartIndex(chunks, i + 1) == WordCount(chunks[0]) + StartIndex(chunks[1..], i)
  {
    assert chunks[..i + 1][1..] == chunks[1..][..i];
  }

  /** The per-chunk loop shared by both chunkers: chunk `i` is turned into a
      record by `at(chunk, start)` where `start` is the running word count,
      and the first failing record aborts the whole call. */
  function AlignChunks(chunks: seq<string>, start: nat, at: (string, nat) -> Result<Dict, PyError>): (r: Result<seq<Dict>, PyError>)
    ensures r.Success? ==> |r.value| == |chunks|
    decreases |chunks|
  {
    if |chunks| == 0 then Success([])
    else
      var record :- at(chunks[0], start);
      var rest :- AlignChunks(chunks[1..], start + WordCount(chunks[0]), at);
      Success([record] + rest)
  }

  /** The record chunk `i` gets: `at` applied at its running word count. */
  function RecordAt(chunks: seq<string>, base: nat, at: (string, nat) -> Result<Dict, PyError>, i: nat): Result<Dict, PyError>
    requires i < |chunks|
  {
    at(chunks[i], base + StartIndex(chunks, i))
  }

  /** Chunk `i + 1` of `chunks` is chunk `i` of the tail, started after the first chunk's words. */
  lemma RecordAtTail(chunks: seq<string>, base: nat, at: (string, nat) -> Result<Dict, PyError>, i: nat)
    requires 0 < |chunks| && i < |chunks| - 1
    ensures RecordAt(chunks, base, at, i + 1) == RecordAt(chunks[1..], base + WordCount(chunks[0]), at, i)
  {
    StartIndexShift(chunks, i);
    assert chunks[i + 1] == chunks[1..][i];
  }

  lemma RecordAtHead(chunks: seq<string>, base: nat, at: (string, nat) -> Result<Dict, PyError>)
    requires 0 < |chunks|
    ensures RecordAt(chunks, base, at, 0) == at(chunks[0], base)
  {
    assert chunks[..0] == [];
  }

  /** The loop succeeds exactly when every chunk's record can be built at its start index. */
  lemma {:induction false} AlignChunksSucceeds(chunks: seq<string>, base: nat, at: (string, nat) -> Result<Dict, PyError>)
    ensures AlignChunks(chunks, base, at).Success? <==>
      forall i :: 0 <= i < |chunks| ==> RecordAt(chunks, base, at, i).Success?
    decreases |chunks|
  {
    if |chunks| > 0 {
      var rest := chunks[1..];
      var next := base + WordCount(chunks[0]);
      AlignChunksSucceeds(rest, next, at);
      RecordAtHead(chunks, base, at);
      if AlignChunks(chunks, base, at).Success? {
        forall i | 0 <= i < |chunks| ensures RecordAt(chunks, base, at, i).Success? {
          if i > 0 {
            RecordAtTail(chunks, base, at, i - 1);
          }
        }
      }
      if forall i :: 0 <= i < |chunks| ==> RecordAt(chunks, base, at, i).Success? {
        forall i | 0 <= i < |rest| ensures RecordAt(rest, next, at, i).Success? {
          RecordAtTail(chunks, base, at, i);
        }
      }
    }
  }

  /** On success the loop yields one record per chunk, in chunk order. */
  lemma {:induction false} AlignChunksRecords(chunks: seq<string>, base: nat, at: (string, nat) -> Result<Dict, PyError>)
    requires AlignChunks(chunks, base, at).Success?
    ensures |AlignChunks(chunks, base, at).value| == |chunks|
    ensures forall i :: 0 <= i < |chunks| ==>
      RecordAt(chunks, base, at, i) == Success(AlignChunks(chunks, base, at).value[i])
    decreases |chunks|
  {
    if |chunks| > 0 {
      var next := base + WordCount(chunks[0]);
      AlignChunksRecords(chunks[1..], next, at);
      RecordAtHead(chunks, base, at);
      forall i | 0 <= i < |chunks| - 1 ensures RecordAt(chunks, base, at, i + 1) == RecordAt(chunks[1..], next, at, i) {
        RecordAtTail(chunks, base, at, i);
      }
    }
  }

  /** On failure the error is that of the first chunk whose record cannot be built. */
  lemma {:induction false} AlignChunksFirstError(chunks: seq<string>, base: nat, at: (string, nat) -> Result<Dict, PyError>)
    requires AlignChunks(chunks, base, at).Failure?
    ensures exists i :: (
      && 0 <= i < |chunks|
      && RecordAt(chunks, base, at, i) == Failure(AlignChunks(chunks, base, at).error)
      && forall k :: 0 <= k < i ==> RecordAt(chunks, base, at, k).Success?)
    decreases |chunks|
  {
    var next := base + WordCount(chunks[0]);
    RecordAtHead(chunks, base, at);
    if at(chunks[0], base).Success? {
      AlignChunksFirstError(chunks[1..], next, at);
      var i :| 0 <= i < |chunks| - 1
        && RecordAt(chunks[1..], next, at, i) == Failure(AlignChunks(chunks[1..], next, at).error)
        && forall k :: 0 <= k < i ==> RecordAt(chunks[1..], next, at, k).Success?;
      RecordAtTail(chunks, base, at, i);
      forall k | 0 <= k < i + 1 ensures RecordAt(chunks, base, at, k).Success? {
        if k > 0 {
          RecordAtTail(chunks, base, at, k - 1);
        }
      }
    }
  }

  // ---------------------------------------------------------------------
  // chunk_transcript

  /** The record for one transcript chunk starting at segment `start`: the
      start time is read at `start` unclamped (an `IndexError` past the
      end), the end time at the next start clamped to the last segment, and
      the text is the chunk verbatim. */
  function TranscriptRecordAt(transcript: seq<Dict>, chunk: string, start: nat): (r: Result<Dict, PyError>)
    ensures r.Success? <==>
      && start < |transcript|
      && "start_time" in transcript[start]
      && "end_time" in transcript[Min(start + WordCount(chunk), |transcript| - 1)]
    ensures start >= |transcript| ==> r == Failure(IndexError)
    ensures r.Success? ==>
      var last := Min(start + WordCount(chunk), |transcript| - 1);
      && start <= last < |transcript|
      && r.value.Keys == {"start_time", "end_time", "text"}
      && r.value["start_time"] == transcript[start]["start_time"]
      && r.value["end_time"] == transcript[last]["end_time"]
      && r.value["text"] == Str(chunk)
  {
    if start >= |transcript| then Failure(IndexError)
    else if "start_time" !in transcript[start] then Failure(KeyError("start_time"))
    else
      var last := Min(start + WordCount(chunk), |transcript| - 1);
      if "end_time" !in transcript[last] then Failure(KeyError("end_time"))
      else Success(map[
        "start_time" := transcript[start]["start_time"],
        "end_time" := transcript[last]["end_time"],
        "text" := Str(chunk)])
  }

  function TranscriptAt(transcript: seq<Dict>): (string, nat) -> Result<Dict, PyError> {
    (chunk: string, start: nat) => TranscriptRecordAt(transcript, chunk, start)
  }

  /** `chunk_transcript(transcript)` with the splitter `split`. Joining the
      segment texts raises first; after that the call keeps the promise
      `TranscriptChunking` states for the splitter's chunks. */
  function ChunkTranscript(transcript: seq<Dict>, split: string -> seq<string>): (r: Result<seq<Dict>, PyError>)
    ensures JoinField(transcript, "text").Failure? ==> r == Failure(JoinField(transcript, "text").error)
    ensures AllStrings(transcript, "text") ==>
      TranscriptChunking(transcript, split(TranscriptText(transcript)), r)
  {
    var fullText :- JoinField(transcript, "text");
    TranscriptAlignment(transcript, split(fullText));
    AlignChunks(split(fullText), 0, TranscriptAt(transcript))
  }

  /** Chunk `i`'s record can be read: its start index is a segment, which
      has a start time, and the segment at its clamped end index has an end time. */
  predicate TranscriptReadable(transcript: seq<Dict>, chunks: seq<string>, i: nat)
    requires i < |chunks|
  {
    && StartIndex(chunks, i) < |transcript|
    && "start_time" in transcript[StartIndex(chunks, i)]
    && "end_time" in transcript[Min(StartIndex(chunks, i + 1), |transcript| - 1)]
  }

  /** Chunk `i`'s record: start time read at its start index, end time at
      the next chunk's start clamped to the last segment, text verbatim. */
  predicate IsTranscriptRecord(transcript: seq<Dict>, chunks: seq<string>, i: nat, d: Dict)
    requires i < |chunks| && TranscriptReadable(transcript, chunks, i)
  {
    && d.Keys == {"start_time", "end_time", "text"}
    && d["text"] == Str(chunks[i])
    && d["start_time"] == transcript[StartIndex(chunks, i)]["start_time"]
    && d["end_time"] == transcript[Min(StartIndex(chunks, i + 1), |transcript| - 1)]["end_time"]
  }

  /** Chunk `i`'s record, as the shared loop builds it, is readable and
      shaped as `IsTranscriptRecord` says exactly when it succeeds. */
  lemma TranscriptRecordOf(transcript: seq<Dict>, chunks: seq<string>, i: nat)
    requires i < |chunks|
    ensures RecordAt(chunks, 0, TranscriptAt(transcript), i).Success? <==> TranscriptReadable(transcript, chunks, i)
    ensures RecordAt(chunks, 0, TranscriptAt(transcript), i).Success? ==>
      IsTranscriptRecord(transcript, chunks, i, RecordAt(chunks, 0, TranscriptAt(transcript), i).value)
  {
    StartIndexStep(chunks, i);
    assert RecordAt(chunks, 0, TranscriptAt(transcript), i) == TranscriptRecordAt(transcript, chunks[i], StartIndex(chunks, i));
  }

  /** What `chunk_transcript` promises of its result `r` for the splitter
      chunks `chunks`: it succeeds exactly when every chunk is readable,
      and then there is one record per chunk, in chunk order, as
      `IsTranscriptRecord` describes. */
  predicate TranscriptChunking(transcript: seq<Dict>, chunks: seq<string>, r: Result<seq<Dict>, PyError>) {
    && (r.Success? <==> forall i :: 0 <= i < |chunks| ==> TranscriptReadable(transcript, chunks, i))
    && (r.Success? ==>
          && |r.value| == |chunks|
          && forall i :: 0 <= i < |chunks| ==> IsTranscriptRecord(transcript, chunks, i, r.value[i]))
  }

  /** The text `chunk_transcript` hands to the splitter: the segment texts
      joined with single spaces. */
  function TranscriptText(transcript: seq<Dict>): string
    requires AllStrings(transcript, "text")
  {
    Join(FieldTexts(transcript, "text"), " ")
  }

  /** The shared loop over any chunk list, with transcript records. */
  lemma TranscriptAlignment(transcript: seq<Dict>, chunks: seq<string>)
    ensures TranscriptChunking(transcript, chunks, AlignChunks(chunks, 0, TranscriptAt(transcript)))
  {
    var at := TranscriptAt(transcript);
    AlignChunksSucceeds(chunks, 0, at);
    forall i | 0 <= i < |chunks|
      ensures RecordAt(chunks, 0, at, i).Success? <==> TranscriptReadable(transcript, chunks, i)
    {
      TranscriptRecordOf(transcript, chunks, i);
    }
    if AlignChunks(chunks, 0, at).Success? {
      AlignChunksRecords(chunks, 0, at);
      var records := AlignChunks(chunks, 0, at).value;
      forall i | 0 <= i < |chunks|
        ensures TranscriptReadable(transcript, chunks, i)
        ensures IsTranscriptRecord(transcript, chunks, i, records[i])
      {
        assert RecordAt(chunks, 0, at, i) == Success(records[i]);
        TranscriptRecordOf(transcript, chunks, i);
      }
    }
  }

  /** The start index is not clamped: a chunk that starts at or past the
      last segment makes the call fail. */
  lemma ChunkTranscriptStartOutOfRange(transcript: seq<Dict>, split: string -> seq<string>, i: nat)
    requires AllStrings(transcript, "text")
    requires i < |split(TranscriptText(transcript))|
    requires StartIndex(split(TranscriptText(transcript)), i) >= |transcript|
    ensures ChunkTranscript(transcript, split).Failure?
  {
    assert !TranscriptReadable(transcript, split(TranscriptText(transcript)), i);
  }

  // ---------------------------------------------------------------------
  // chunk_scenes

  /** The record for one scene chunk starting at scene `start`: its start
      time, unclamped, and its text split on `". "`. There is no end time. */
  function SceneRecordAt(scenes: seq<Dict>, chunk: string, start: nat): (r: Result<Dict, PyError>)
    ensures r.Success? <==> start < |scenes| && "start_time" in scenes[start]
    ensures start >= |scenes| ==> r == Failure(IndexError)
    ensures r.Success? ==>
      && r.value.Keys == {"start_time", "descriptions"}
      && r.value["start_time"] == scenes[start]["start_time"]
      && r.value["descriptions"] == StrList(Split(chunk, SentenceSeparator))
  {
    if start >= |scenes| then Failure(IndexError)
    else if "start_time" !in scenes[start] then Failure(KeyError("start_time"))
    else Success(map[
      "start_time" := scenes[start]["start_time"],
      "descriptions" := StrList(Split(chunk, SentenceSeparator))])
  }

  function SceneAt(scenes: seq<Dict>): (string, nat) -> Result<Dict, PyError> {
    (chunk: string, start: nat) => SceneRecordAt(scenes, chunk, start)
  }

  /** `chunk_scenes(scenes)` with the splitter `split`. Joining the
      descriptions raises first; after that the call keeps the promise
      `SceneChunking` states for the splitter's chunks. */
  function ChunkScenes(scenes: seq<Dict>, split: string -> seq<string>): (r: Result<seq<Dict>, PyError>)
    ensures JoinField(scenes, "description").Failure? ==> r == Failure(JoinField(scenes, "description").error)
    ensures AllStrings(scenes, "description") ==>
      SceneChunking(scenes, split(SceneText(scenes)), r)
  {
    var fullText :- JoinField(scenes, "description");
    SceneAlignment(scenes, split(fullText));
    AlignChunks(split(fullText), 0, SceneAt(scenes))
  }

  /** Chunk `i`'s start index is a scene, which has a start time. */
  predicate SceneReadable(scenes: seq<Dict>, chunks: seq<string>, i: nat)
    requires i < |chunks|
  {
    StartIndex(chunks, i) < |scenes| && "start_time" in scenes[StartIndex(chunks, i)]
  }

  /** Chunk `i`'s scene record: the start time read at its start index and
      its sentences, which join back to the chunk. */
  predicate SceneRecordFor(scenes: seq<Dict>, chunks: seq<string>, i: nat, d: Dict)
    requires i < |chunks|
  {
    && StartIndex(chunks, i) < |scenes|
    && "start_time" in scenes[StartIndex(chunks, i)]
    && d.Keys == {"start_time", "descriptions"}
    && d["start_time"] == scenes[StartIndex(chunks, i)]["start_time"]
    && d["descriptions"] == StrList(Split(chunks[i], SentenceSeparator))
    && Join(Split(chunks[i], SentenceSeparator), SentenceSeparator) == chunks[i]
  }

  lemma SceneRecordOf(scenes: seq<Dict>, chunks: seq<string>, i: nat, d: Dict)
    requires i < |chunks|
    requires RecordAt(chunks, 0, SceneAt(scenes), i) == Success(d)
    ensures SceneRecordFor(scenes, chunks, i, d)
  {
    assert RecordAt(chunks, 0, SceneAt(scenes), i) == SceneRecordAt(scenes, chunks[i], StartIndex(chunks, i));
    JoinSplit(chunks[i], SentenceSeparator);
  }

  /** What `chunk_scenes` promises of its result `r` for the splitter
      chunks `chunks`: it succeeds exactly when every chunk's start index is
      a scene with a start time, and then there is one record per chunk, in
      chunk order, as `SceneRecordFor` describes. */
  predicate SceneChunking(scenes: seq<Dict>, chunks: seq<string>, r: Result<seq<Dict>, PyError>) {
    && (r.Success? <==> forall i :: 0 <= i < |chunks| ==> SceneReadable(scenes, chunks, i))
    && (r.Success? ==>
          && |r.value| == |chunks|
          && forall i :: 0 <= i < |chunks| ==> SceneRecordFor(scenes, chunks, i, r.value[i]))
  }

  /** The text `chunk_scenes` hands to the splitter: the scene descriptions
      joined with single spaces. */
  function SceneText(scenes: seq<Dict>): string
    requires AllStrings(scenes, "description")
  {
    Join(FieldTexts(scenes, "description"), " ")
  }

  /** The shared loop over any chunk list, with scene records. */
  lemma SceneAlignment(scenes: seq<Dict>, chunks: seq<string>)
    ensures SceneChunking(scenes, chunks, AlignChunks(chunks, 0, SceneAt(scenes)))
  {
    var at := SceneAt(scenes);
    AlignChunksSucceeds(chunks, 0, at);
    forall i | 0 <= i < |chunks|
      ensures RecordAt(chunks, 0, at, i).Success? <==> SceneReadable(scenes, chunks, i)
    {
      assert RecordAt(chunks, 0, at, i) == SceneRecordAt(scenes, chunks[i], StartIndex(chunks, i));
    }
    if AlignChunks(chunks, 0, at).Success? {
      AlignChunksRecords(chunks, 0, at);
      var records := AlignChunks(chunks, 0, at).value;
      forall i | 0 <= i < |chunks|
        ensures SceneReadable(scenes, chunks, i)
        ensures SceneRecordFor(scenes, chunks, i, records[i])
      {
        assert RecordAt(chunks, 0, at, i) == Success(records[i]);
        SceneRecordOf(scenes, chunks, i, records[i]);
      }
    }
  }

  /** Neither chunker produces a `title` or a `description` key. */
  lemma ChunksLackTitle(transcript: seq<Dict>, scenes: seq<Dict>, split: string -> seq<string>)
    ensures ChunkTranscript(transcript, split).Success? ==>
      forall i :: 0 <= i < |ChunkTranscript(transcript, split).value| ==>
        "title" !in ChunkTranscript(transcript, split).value[i]
        && "description" !in ChunkTranscript(transcript, split).value[i]
    ensures ChunkScenes(scenes, split).Success? ==>
      forall i :: 0 <= i < |ChunkScenes(scenes, split).value| ==>
        "title" !in ChunkScenes(scenes, split).value[i]
        && "description" !in ChunkScenes(scenes, split).value[i]
  {
    if ChunkTranscript(transcript, split).Success? {
      assert JoinField(transcript, "text").Success?;
    }
    if ChunkScenes(scenes, split).Success? {
      assert JoinField(scenes, "description").Success?;
    }
  }
}
