/** `VideoMetadataProcessor.process_video`, the composition of the chunkers
    with `add_chunks`, and what the stored documents give the retriever.
    The chunkers' records carry no `title` (and scene records no
    `description`), while `add_chunks` subscripts both, so the composition
    raises as soon as there is a chunk to store. */
module MetadataProcessor {
  import opened Wrappers
  import opened PyValue
  import opened MetadataChunker
  import opened VectorDb
  import opened Retriever

  /** The `video_metadata` dict; `None` stands for a missing key. */
  datatype VideoMetadata = VideoMetadata(
    transcript: Option<seq<Dict>>,
    frameDescriptions: Option<seq<Dict>>,
    videoUri: Option<Value>)

  /** `process_video(video_metadata)` against a store holding `store`:
      the keys and chunkers are evaluated in source order, and the first
      exception leaves the store as it was. */
  function ProcessVideo(store: seq<Document>, meta: VideoMetadata, split: string -> seq<string>, fmt: Value -> string): (r: AddOutcome)
    ensures r.error.Some? ==> r.store == store
    // `video_metadata["transcript"]` is read first, then chunked
    ensures meta.transcript.None? ==> r.error == Some(KeyError("transcript"))
    ensures meta.transcript.Some? && ChunkTranscript(meta.transcript.value, split).Failure? ==>
      r.error == Some(ChunkTranscript(meta.transcript.value, split).error)
    // then `video_metadata["frame_descriptions"]`, then its chunking
    ensures meta.transcript.Some? && ChunkTranscript(meta.transcript.value, split).Success? ==>
      && (meta.frameDescriptions.None? ==> r.error == Some(KeyError("frame_descriptions")))
      && (meta.frameDescriptions.Some? && ChunkScenes(meta.frameDescriptions.value, split).Failure? ==>
            r.error == Some(ChunkScenes(meta.frameDescriptions.value, split).error))
    // then `video_metadata["video_uri"]`, and only then `add_chunks` on the dict of lines 19-23
    ensures && meta.transcript.Some? && ChunkTranscript(meta.transcript.value, split).Success?
            && meta.frameDescriptions.Some? && ChunkScenes(meta.frameDescriptions.value, split).Success? ==>
      && (meta.videoUri.None? ==> r.error == Some(KeyError("video_uri")))
      && (meta.videoUri.Some? ==>
            r == AddChunks(store, ChunkMetadata(meta.videoUri,
                                                Some(ChunkTranscript(meta.transcript.value, split).value),
                                                Some(ChunkScenes(meta.frameDescriptions.value, split).value)), fmt))
  {
    if meta.transcript.None? then AddOutcome(store, Some(KeyError("transcript")))
    else match ChunkTranscript(meta.transcript.value, split)
      case Failure(e) => AddOutcome(store, Some(e))
      case Success(transcriptChunks) =>
        if meta.frameDescriptions.None? then AddOutcome(store, Some(KeyError("frame_descriptions")))
        else match ChunkScenes(meta.frameDescriptions.value, split)
          case Failure(e) => AddOutcome(store, Some(e))
          case Success(sceneChunks) =>
            if meta.videoUri.None? then AddOutcome(store, Some(KeyError("video_uri")))
            else AddChunks(store, ChunkMetadata(meta.videoUri, Some(transcriptChunks), Some(sceneChunks)), fmt)
  }

  /** Every chunk list reaching `add_chunks` from the chunkers: a non-empty
      transcript list raises `KeyError('title')` at its first chunk; with no
      transcript chunks, a non-empty scene list raises
      `KeyError('description')` at its first chunk. */
  lemma ChunkerOutputRejected(uri: Value, transcript: seq<Dict>, scenes: seq<Dict>, split: string -> seq<string>, fmt: Value -> string)
    requires ChunkTranscript(transcript, split).Success?
    requires ChunkScenes(scenes, split).Success?
    ensures var transcriptChunks := ChunkTranscript(transcript, split).value;
      var sceneChunks := ChunkScenes(scenes, split).value;
      var r := BuildDocuments(ChunkMetadata(Some(uri), Some(transcriptChunks), Some(sceneChunks)), fmt);
      && (r.Success? <==> transcriptChunks == [] && sceneChunks == [])
      && (transcriptChunks != [] ==> r == Failure(KeyError("title")))
      && (transcriptChunks == [] && sceneChunks != [] ==> r == Failure(KeyError("description")))
  {
    var transcriptChunks := ChunkTranscript(transcript, split).value;
    var sceneChunks := ChunkScenes(scenes, split).value;
    var metadata := ChunkMetadata(Some(uri), Some(transcriptChunks), Some(sceneChunks));
    ChunksLackTitle(transcript, scenes, split);
    var r := BuildDocuments(metadata, fmt);
    if transcriptChunks != [] {
      assert transcriptChunks[0].Keys == {"start_time", "end_time", "text"};
      assert TranscriptDocument(transcriptChunks[0], Some(uri), fmt) == Failure(KeyError("title"));
      if r.Failure? {
        BuildDocumentsFirstError(metadata, fmt);
        var i :| 0 <= i < |transcriptChunks|
          && TranscriptDocument(transcriptChunks[i], Some(uri), fmt) == Failure(r.error)
          && forall k :: 0 <= k < i ==> TranscriptDocument(transcriptChunks[k], Some(uri), fmt).Success?;
        assert i == 0;
      }
    } else if sceneChunks != [] {
      assert "description" !in sceneChunks[0];
      assert SceneDocument(sceneChunks[0], Some(uri), fmt) == Failure(KeyError("description"));
      if r.Failure? {
        BuildDocumentsFirstError(metadata, fmt);
        var j :| 0 <= j < |sceneChunks|
          && SceneDocument(sceneChunks[j], Some(uri), fmt) == Failure(r.error)
          && forall k :: 0 <= k < j ==> SceneDocument(sceneChunks[k], Some(uri), fmt).Success?;
        assert j == 0;
      }
    }
  }

  /** `process_video` never adds a document: it either raises or finds
      both chunk lists empty. */
  lemma ProcessVideoNeverStores(store: seq<Document>, meta: VideoMetadata, split: string -> seq<string>, fmt: Value -> string)
    ensures ProcessVideo(store, meta, split, fmt).store == store
    ensures ProcessVideo(store, meta, split, fmt).error.None? ==>
      && meta.transcript.Some? && ChunkTranscript(meta.transcript.value, split) == Success([])
      && meta.frameDescriptions.Some? && ChunkScenes(meta.frameDescriptions.value, split) == Success([])
  {
    if && meta.transcript.Some? && ChunkTranscript(meta.transcript.value, split).Success?
       && meta.frameDescriptions.Some? && ChunkScenes(meta.frameDescriptions.value, split).Success?
       && meta.videoUri.Some?
    {
      ChunkerOutputRejected(meta.videoUri.value, meta.transcript.value, meta.frameDescriptions.value, split, fmt);
    }
  }

  /** Documents stored by `add_chunks` always render: if the store held
      only such documents and the search returns stored documents, the
      context succeeds and every block has its `End Time:` line. */
  lemma StoredDocumentsRender(
    store: seq<Document>, metadata: ChunkMetadata, fmt: Value -> string,
    question: string, topK: int, search: (string, int) -> seq<Hit>)
    requires forall d :: d in store ==> d.metadata.Keys == MetadataKeys
    requires AddChunks(store, metadata, fmt).error.None?
    requires forall i :: 0 <= i < |search(question, topK)| ==>
      search(question, topK)[i].doc in AddChunks(store, metadata, fmt).store
    ensures GetRelevantContext(question, topK, search, fmt).Success?
    ensures var results := Query(question, topK, search);
      forall k :: 0 <= k < |results| ==> Renderable(results[k]) && "end_time" in results[k].metadata
  {
    var stored := AddChunks(store, metadata, fmt).store;
    var added := BuildDocuments(metadata, fmt).value;
    DocumentsTagged(metadata, fmt);
    assert stored == store + added;
    forall d | d in stored ensures d.metadata.Keys == MetadataKeys {
      if d !in store {
        var k :| 0 <= k < |added| && added[k] == d;
      }
    }
    var results := Query(question, topK, search);
    forall k | 0 <= k < |results| ensures Renderable(results[k]) && "end_time" in results[k].metadata {
      assert HitOf(results[k]) == search(question, topK)[k];
    }
  }
}
