/** `VectorDBStore.add_chunks`: transcript and scene chunks become typed
    documents, all handed to the store in one `add_documents` call. The
    Chroma collection is modelled as the sequence of documents added so
    far; embedding, validation inside Chroma and persistence are not. */
module VectorDb {
  import opened Wrappers
  import opened PyValue
  import opened PyStr

  /** langchain's `Document(page_content, metadata)`. */
  datatype Document = Document(content: string, metadata: Dict)

  /** The `metadata` dict `add_chunks` receives; `None` stands for a
      missing key, which raises `KeyError` only when it is subscripted. */
  datatype ChunkMetadata = ChunkMetadata(
    videoUri: Option<Value>,
    transcriptChunks: Option<seq<Dict>>,
    sceneChunks: Option<seq<Dict>>)

  const TranscriptPrefix: string := "Transcript: "
  const ScenePrefix: string := "Scene: "
  const TranscriptType: string := "transcript"
  const SceneType: string := "scene"
  /** The description a transcript document gets when its chunk has none. */
  const NotAvailable: string := "N/A"
  /** The scene length assumed when a scene chunk has no end time. */
  const DefaultSceneSeconds: real := 2.0

  /** The metadata keys of every document. */
  const MetadataKeys: set<string> := {"type", "start_time", "end_time", "video_uri", "title", "description"}

  /** The keys a transcript chunk is subscripted with, in evaluation order;
      `metadata["video_uri"]` is read between `end_time` and `title`. */
  const TranscriptKeys: seq<string> := ["text", "start_time", "end_time", "title"]
  const TranscriptKeysBeforeUri: seq<string> := ["text", "start_time", "end_time"]

  /** The keys a scene chunk is subscripted with, in evaluation order; the
      default end time is computed and `metadata["video_uri"]` is read
      between `start_time` and `title`. */
  const SceneKeys: seq<string> := ["description", "start_time", "title"]
  const SceneKeysBeforeUri: seq<string> := ["description", "start_time"]

  /** `d.get(key, default)`. */
  function Get(d: Dict, key: string, default: Value): (r: Value)
    ensures key in d ==> r == d[key]
    ensures key !in d ==> r == default
  {
    if key in d then d[key] else default
  }

  /** The first of `keys` that `d` lacks, which is where a run of
      subscripts in that order raises `KeyError`. */
  function FirstMissing(d: Dict, keys: seq<string>): (r: Option<string>)
    ensures r.None? <==> forall k :: 0 <= k < |keys| ==> keys[k] in d
    ensures r.Some? ==> exists k :: (
      && 0 <= k < |keys|
      && keys[k] == r.value
      && r.value !in d
      && forall j :: 0 <= j < k ==> keys[j] in d)
  {
    if |keys| == 0 then None
    else if keys[0] !in d then Some(keys[0])
    else
      var rest := FirstMissing(d, keys[1..]);
      assert rest.Some? ==> exists k :: (
        && 0 <= k < |keys|
        && keys[k] == rest.value
        && rest.value !in d
        && forall j :: 0 <= j < k ==> keys[j] in d) by {
        if rest.Some? {
          var k :| 0 <= k < |keys| - 1 && keys[1..][k] == rest.value && rest.value !in d
            && forall j :: 0 <= j < k ==> keys[1..][j] in d;
          assert forall j :: 0 <= j < k + 1 ==> keys[j] in d by {
            forall j | 0 <= j < k + 1 ensures keys[j] in d {
              if j > 0 {
                assert keys[j] == keys[1..][j - 1];
              }
            }
          }
          assert keys[k + 1] == rest.value;
        }
      }
      rest
  }

  /** The document for one transcript chunk (lines 19-30 of the loop);
      `uri` is `metadata["video_uri"]`, `None` when the key is missing. */
  function TranscriptDocument(chunk: Dict, uri: Option<Value>, fmt: Value -> string): (r: Result<Document, PyError>)
    ensures r.Success? <==> {"text", "start_time", "end_time", "title"} <= chunk.Keys && uri.Some?
  {
    if "text" !in chunk then Failure(KeyError("text"))
    else if "start_time" !in chunk then Failure(KeyError("start_time"))
    else if "end_time" !in chunk then Failure(KeyError("end_time"))
    else if uri.None? then Failure(KeyError("video_uri"))
    else if "title" !in chunk then Failure(KeyError("title"))
    else
      Success(Document(
        TranscriptPrefix + Format(chunk["text"], fmt),
        map[
          "type" := Str(TranscriptType),
          "start_time" := chunk["start_time"],
          "end_time" := chunk["end_time"],
          "video_uri" := uri.value,
          "title" := chunk["title"],
          "description" := Get(chunk, "description", Str(NotAvailable))]))
  }

  /** `doc` is the transcript document for `chunk`: its content is the
      prefix followed by the rendered text, it is tagged `transcript`,
      carries `uri`, copies the times and title, and falls back to `N/A`
      for a missing description. */
  predicate IsTranscriptDocumentOf(chunk: Dict, uri: Value, fmt: Value -> string, doc: Document)
    requires {"text", "start_time", "end_time", "title"} <= chunk.Keys
  {
    && StartsWith(doc.content, TranscriptPrefix)
    && doc.content[|TranscriptPrefix|..] == Format(chunk["text"], fmt)
    && doc.metadata.Keys == MetadataKeys
    && doc.metadata["type"] == Str(TranscriptType)
    && doc.metadata["video_uri"] == uri
    && doc.metadata["start_time"] == chunk["start_time"]
    && doc.metadata["end_time"] == chunk["end_time"]
    && doc.metadata["title"] == chunk["title"]
    && ("description" in chunk ==> doc.metadata["description"] == chunk["description"])
    && ("description" !in chunk ==> doc.metadata["description"] == Str(NotAvailable))
  }

  lemma TranscriptDocumentContents(chunk: Dict, uri: Option<Value>, fmt: Value -> string)
    requires TranscriptDocument(chunk, uri, fmt).Success?
    ensures IsTranscriptDocumentOf(chunk, uri.value, fmt, TranscriptDocument(chunk, uri, fmt).value)
  {
  }

  /** The document for one scene chunk (lines 33-44 of the loop). The
      default `chunk["start_time"] + 2` is an argument of `get`, so it is
      evaluated, and can raise `TypeError`, even when the chunk has an end time. */
  function SceneDocument(chunk: Dict, uri: Option<Value>, fmt: Value -> string): (r: Result<Document, PyError>)
    ensures r.Success? <==>
      {"description", "start_time", "title"} <= chunk.Keys && chunk["start_time"].Num? && uri.Some?
  {
    if "description" !in chunk then Failure(KeyError("description"))
    else if "start_time" !in chunk then Failure(KeyError("start_time"))
    else if !chunk["start_time"].Num? then Failure(TypeError)
    else if uri.None? then Failure(KeyError("video_uri"))
    else if "title" !in chunk then Failure(KeyError("title"))
    else
      var start := chunk["start_time"];
      Success(Document(
        ScenePrefix + Format(chunk["description"], fmt),
        map[
          "type" := Str(SceneType),
          "start_time" := start,
          "end_time" := Get(chunk, "end_time", Num(start.x + DefaultSceneSeconds)),
          "video_uri" := uri.value,
          "title" := chunk["title"],
          "description" := chunk["description"]]))
  }

  /** `doc` is the scene document for `chunk`: its content is the prefix
      followed by the rendered description, it is tagged `scene`, carries
      `uri`, copies start time, title and description, and ends two
      seconds after the start when the chunk has no end time. */
  predicate IsSceneDocumentOf(chunk: Dict, uri: Value, fmt: Value -> string, doc: Document)
    requires {"description", "start_time", "title"} <= chunk.Keys && chunk["start_time"].Num?
  {
    && StartsWith(doc.content, ScenePrefix)
    && doc.content[|ScenePrefix|..] == Format(chunk["description"], fmt)
    && doc.metadata.Keys == MetadataKeys
    && doc.metadata["type"] == Str(SceneType)
    && doc.metadata["video_uri"] == uri
    && doc.metadata["start_time"] == chunk["start_time"]
    && ("end_time" in chunk ==> doc.metadata["end_time"] == chunk["end_time"])
    && ("end_time" !in chunk ==> doc.metadata["end_time"] == Num(chunk["start_time"].x + DefaultSceneSeconds))
    && doc.metadata["title"] == chunk["title"]
    && doc.metadata["description"] == chunk["description"]
  }

  lemma SceneDocumentContents(chunk: Dict, uri: Option<Value>, fmt: Value -> string)
    requires SceneDocument(chunk, uri, fmt).Success?
    ensures IsSceneDocumentOf(chunk, uri.value, fmt, SceneDocument(chunk, uri, fmt).value)
  {
  }

  function TranscriptMaker(uri: Option<Value>, fmt: Value -> string): Dict -> Result<Document, PyError> {
    (chunk: Dict) => TranscriptDocument(chunk, uri, fmt)
  }

  function SceneMaker(uri: Option<Value>, fmt: Value -> string): Dict -> Result<Document, PyError> {
    (chunk: Dict) => SceneDocument(chunk, uri, fmt)
  }

  /** Every transcript chunk can be turned into a document. */
  predicate TranscriptsConvert(uri: Option<Value>, chunks: seq<Dict>, fmt: Value -> string) {
    forall i :: 0 <= i < |chunks| ==> TranscriptDocument(chunks[i], uri, fmt).Success?
  }

  /** Every scene chunk can be turned into a document. */
  predicate ScenesConvert(uri: Option<Value>, chunks: seq<Dict>, fmt: Value -> string) {
    forall j :: 0 <= j < |chunks| ==> SceneDocument(chunks[j], uri, fmt).Success?
  }

  /** The document list `add_chunks` builds: `metadata["transcript_chunks"]`
      is read first, then its documents are built, then
      `metadata["scene_chunks"]` is read and its documents built. The list
      holds transcripts first, then scenes, each in input order, all sharing
      `video_uri`; the first read or chunk that raises aborts the call. */
  function BuildDocuments(metadata: ChunkMetadata, fmt: Value -> string): (r: Result<seq<Document>, PyError>)
    ensures r.Success? <==>
      && metadata.transcriptChunks.Some? && metadata.sceneChunks.Some?
      && TranscriptsConvert(metadata.videoUri, metadata.transcriptChunks.value, fmt)
      && ScenesConvert(metadata.videoUri, metadata.sceneChunks.value, fmt)
    ensures metadata.transcriptChunks.None? ==> r == Failure(KeyError("transcript_chunks"))
    ensures r.Success? ==>
      var transcriptChunks := metadata.transcriptChunks.value;
      var sceneChunks := metadata.sceneChunks.value;
      && |r.value| == |transcriptChunks| + |sceneChunks|
      && (forall i :: 0 <= i < |transcriptChunks| ==>
            TranscriptDocument(transcriptChunks[i], metadata.videoUri, fmt) == Success(r.value[i]))
      && (forall j :: 0 <= j < |sceneChunks| ==>
            SceneDocument(sceneChunks[j], metadata.videoUri, fmt) == Success(r.value[|transcriptChunks| + j]))
  {
    if metadata.transcriptChunks.None? then Failure(KeyError("transcript_chunks"))
    else
      var transcripts :- MapResult(metadata.transcriptChunks.value, TranscriptMaker(metadata.videoUri, fmt));
      if metadata.sceneChunks.None? then Failure(KeyError("scene_chunks"))
      else
        var scenes :- MapResult(metadata.sceneChunks.value, SceneMaker(metadata.videoUri, fmt));
        Success(transcripts + scenes)
  }

  /** When `add_chunks` raises, the error is the first one in source order:
      a missing `transcript_chunks`, else the first failing transcript
      chunk, else a missing `scene_chunks`, else the first failing scene chunk. */
  lemma BuildDocumentsFirstError(metadata: ChunkMetadata, fmt: Value -> string)
    requires BuildDocuments(metadata, fmt).Failure?
    ensures var e := BuildDocuments(metadata, fmt).error;
      var uri := metadata.videoUri;
      if metadata.transcriptChunks.None? then e == KeyError("transcript_chunks")
      else if !TranscriptsConvert(uri, metadata.transcriptChunks.value, fmt) then
        var transcriptChunks := metadata.transcriptChunks.value;
        exists i :: (
          && 0 <= i < |transcriptChunks|
          && TranscriptDocument(transcriptChunks[i], uri, fmt) == Failure(e)
          && forall k :: 0 <= k < i ==> TranscriptDocument(transcriptChunks[k], uri, fmt).Success?)
      else if metadata.sceneChunks.None? then e == KeyError("scene_chunks")
      else
        var sceneChunks := metadata.sceneChunks.value;
        exists j :: (
          && 0 <= j < |sceneChunks|
          && SceneDocument(sceneChunks[j], uri, fmt) == Failure(e)
          && forall k :: 0 <= k < j ==> SceneDocument(sceneChunks[k], uri, fmt).Success?)
  {
    var uri := metadata.videoUri;
    if metadata.transcriptChunks.Some? {
      var transcriptChunks := metadata.transcriptChunks.value;
      var transcripts := MapResult(transcriptChunks, TranscriptMaker(uri, fmt));
      if transcripts.Success? {
        assert TranscriptsConvert(uri, transcriptChunks, fmt) by {
          assert forall i :: 0 <= i < |transcriptChunks| ==> TranscriptMaker(uri, fmt)(transcriptChunks[i]).Success?;
        }
        if metadata.sceneChunks.Some? {
          var sceneChunks := metadata.sceneChunks.value;
          var scenes := MapResult(sceneChunks, SceneMaker(uri, fmt));
          assert scenes.Failure?;
          var j :| 0 <= j < |sceneChunks| && SceneMaker(uri, fmt)(sceneChunks[j]) == Failure(scenes.error)
            && forall k :: 0 <= k < j ==> SceneMaker(uri, fmt)(sceneChunks[k]).Success?;
        }
      } else {
        var i :| 0 <= i < |transcriptChunks| && TranscriptMaker(uri, fmt)(transcriptChunks[i]) == Failure(transcripts.error)
          && forall k :: 0 <= k < i ==> TranscriptMaker(uri, fmt)(transcriptChunks[k]).Success?;
      }
    }
  }

  /** The store after `add_chunks`: the documents go in with one
      `add_documents` call, so either all of them are appended or, when
      building the list raised, none is. */
  datatype AddOutcome = AddOutcome(store: seq<Document>, error: Option<PyError>)

  function AddChunks(store: seq<Document>, metadata: ChunkMetadata, fmt: Value -> string): (r: AddOutcome)
    ensures r.error.None? <==> BuildDocuments(metadata, fmt).Success?
    ensures r.error.Some? ==> r.store == store
    ensures r.error.Some? ==> r.error.value == BuildDocuments(metadata, fmt).error
    ensures r.error.None? ==>
      && |r.store| == |store| + |metadata.transcriptChunks.value| + |metadata.sceneChunks.value|
      && r.store[..|store|] == store
      && r.store[|store|..] == BuildDocuments(metadata, fmt).value
  {
    match BuildDocuments(metadata, fmt)
    case Failure(e) => AddOutcome(store, Some(e))
    case Success(documents) => AddOutcome(store + documents, None)
  }

  // ---------------------------------------------------------------------
  // Which error a chunk raises

  lemma FirstMissingCons(d: Dict, key: string, rest: seq<string>)
    ensures FirstMissing(d, [key] + rest) == if key !in d then Some(key) else FirstMissing(d, rest)
  {
    assert ([key] + rest)[1..] == rest;
  }

  /** A transcript chunk raises `KeyError` for the first of `text`,
      `start_time`, `end_time`, `title` that it lacks; a missing
      `video_uri` is raised after `end_time` and before `title`. */
  lemma TranscriptDocumentError(chunk: Dict, uri: Option<Value>, fmt: Value -> string)
    requires TranscriptDocument(chunk, uri, fmt).Failure?
    ensures uri.Some? ==>
      && FirstMissing(chunk, TranscriptKeys).Some?
      && TranscriptDocument(chunk, uri, fmt).error == KeyError(FirstMissing(chunk, TranscriptKeys).value)
    ensures uri.None? ==>
      TranscriptDocument(chunk, uri, fmt).error ==
        KeyError(if FirstMissing(chunk, TranscriptKeysBeforeUri).Some?
                 then FirstMissing(chunk, TranscriptKeysBeforeUri).value else "video_uri")
  {
    FirstMissingCons(chunk, "text", ["start_time", "end_time", "title"]);
    FirstMissingCons(chunk, "start_time", ["end_time", "title"]);
    FirstMissingCons(chunk, "end_time", ["title"]);
    FirstMissingCons(chunk, "title", []);
    FirstMissingCons(chunk, "text", ["start_time", "end_time"]);
    FirstMissingCons(chunk, "start_time", ["end_time"]);
    FirstMissingCons(chunk, "end_time", []);
  }

  /** A scene chunk raises `TypeError` exactly when it has a description
      and a non-numeric start time. Otherwise it raises `KeyError` for the
      first of `description`, `start_time`, `title` that it lacks, with a
      missing `video_uri` raised after `start_time` and before `title`. */
  lemma SceneDocumentError(chunk: Dict, uri: Option<Value>, fmt: Value -> string)
    requires SceneDocument(chunk, uri, fmt).Failure?
    ensures SceneDocument(chunk, uri, fmt).error == TypeError <==>
      "description" in chunk && "start_time" in chunk && !chunk["start_time"].Num?
    ensures SceneDocument(chunk, uri, fmt).error != TypeError && uri.Some? ==>
      && FirstMissing(chunk, SceneKeys).Some?
      && SceneDocument(chunk, uri, fmt).error == KeyError(FirstMissing(chunk, SceneKeys).value)
    ensures SceneDocument(chunk, uri, fmt).error != TypeError && uri.None? ==>
      SceneDocument(chunk, uri, fmt).error ==
        KeyError(if FirstMissing(chunk, SceneKeysBeforeUri).Some?
                 then FirstMissing(chunk, SceneKeysBeforeUri).value else "video_uri")
  {
    FirstMissingCons(chunk, "description", ["start_time", "title"]);
    FirstMissingCons(chunk, "start_time", ["title"]);
    FirstMissingCons(chunk, "title", []);
    FirstMissingCons(chunk, "description", ["start_time"]);
    FirstMissingCons(chunk, "start_time", []);
  }

  /** `video_uri` is read once per chunk and never otherwise: without it
      `add_chunks` succeeds exactly when both chunk lists are present and
      empty. */
  lemma MissingUri(metadata: ChunkMetadata, fmt: Value -> string)
    requires metadata.videoUri.None?
    ensures BuildDocuments(metadata, fmt).Success? <==>
      metadata.transcriptChunks == Some([]) && metadata.sceneChunks == Some([])
  {
    if metadata.transcriptChunks.Some? && |metadata.transcriptChunks.value| > 0 {
      var first := metadata.transcriptChunks.value[0];
      assert TranscriptDocument(first, None, fmt).Failure?;
    }
    if metadata.sceneChunks.Some? && |metadata.sceneChunks.value| > 0 {
      var first := metadata.sceneChunks.value[0];
      assert SceneDocument(first, None, fmt).Failure?;
    }
  }

  // ---------------------------------------------------------------------
  // Reading chunks back from documents

  /** The transcript chunk a transcript document was built from: the text
      after the content prefix and the copied metadata. */
  function TranscriptChunkOf(doc: Document): (chunk: Dict)
    requires StartsWith(doc.content, TranscriptPrefix)
    requires {"start_time", "end_time", "title", "description"} <= doc.metadata.Keys
    ensures chunk.Keys == {"text", "start_time", "end_time", "title", "description"}
  {
    map[
      "text" := Str(doc.content[|TranscriptPrefix|..]),
      "start_time" := doc.metadata["start_time"],
      "end_time" := doc.metadata["end_time"],
      "title" := doc.metadata["title"],
      "description" := doc.metadata["description"]]
  }

  /** The scene chunk a scene document was built from. */
  function SceneChunkOf(doc: Document): (chunk: Dict)
    requires StartsWith(doc.content, ScenePrefix)
    requires {"start_time", "end_time", "title"} <= doc.metadata.Keys
    ensures chunk.Keys == {"description", "start_time", "end_time", "title"}
  {
    map[
      "description" := Str(doc.content[|ScenePrefix|..]),
      "start_time" := doc.metadata["start_time"],
      "end_time" := doc.metadata["end_time"],
      "title" := doc.metadata["title"]]
  }

  /** A transcript chunk with every field the document copies and a string
      text is read back unchanged from its document. */
  lemma TranscriptDocumentRoundTrip(chunk: Dict, uri: Value, fmt: Value -> string)
    requires chunk.Keys == {"text", "start_time", "end_time", "title", "description"}
    requires chunk["text"].Str?
    ensures TranscriptDocument(chunk, Some(uri), fmt).Success?
    ensures TranscriptChunkOf(TranscriptDocument(chunk, Some(uri), fmt).value) == chunk
  {
    TranscriptDocumentContents(chunk, Some(uri), fmt);
  }

  /** A scene chunk with an end time, a numeric start time and a string
      description is read back unchanged from its document. */
  lemma SceneDocumentRoundTrip(chunk: Dict, uri: Value, fmt: Value -> string)
    requires chunk.Keys == {"description", "start_time", "end_time", "title"}
    requires chunk["description"].Str? && chunk["start_time"].Num?
    ensures SceneDocument(chunk, Some(uri), fmt).Success?
    ensures SceneChunkOf(SceneDocument(chunk, Some(uri), fmt).value) == chunk
  {
    SceneDocumentContents(chunk, Some(uri), fmt);
  }

  /** Every stored document carries all six metadata keys and the call's
      video URI, and its position, its `type` and its content prefix agree:
      the first `len(transcript_chunks)` are transcripts, the rest scenes. */
  lemma DocumentsTagged(metadata: ChunkMetadata, fmt: Value -> string)
    requires BuildDocuments(metadata, fmt).Success?
    ensures var docs := BuildDocuments(metadata, fmt).value;
      var n := |metadata.transcriptChunks.value|;
      forall k :: 0 <= k < |docs| ==>
        && docs[k].metadata.Keys == MetadataKeys
        && metadata.videoUri == Some(docs[k].metadata["video_uri"])
        && (docs[k].metadata["type"] == Str(TranscriptType) <==> k < n)
        && (docs[k].metadata["type"] == Str(SceneType) <==> k >= n)
        && (StartsWith(docs[k].content, TranscriptPrefix) <==> k < n)
        && (StartsWith(docs[k].content, ScenePrefix) <==> k >= n)
  {
    var docs := BuildDocuments(metadata, fmt).value;
    var uri := metadata.videoUri;
    var transcriptChunks := metadata.transcriptChunks.value;
    var sceneChunks := metadata.sceneChunks.value;
    var n := |transcriptChunks|;
    forall k | 0 <= k < |docs|
      ensures docs[k].metadata.Keys == MetadataKeys
      ensures uri == Some(docs[k].metadata["video_uri"])
      ensures docs[k].metadata["type"] == Str(TranscriptType) <==> k < n
      ensures docs[k].metadata["type"] == Str(SceneType) <==> k >= n
      ensures StartsWith(docs[k].content, TranscriptPrefix) <==> k < n
      ensures StartsWith(docs[k].content, ScenePrefix) <==> k >= n
    {
      if k < n {
        assert TranscriptDocument(transcriptChunks[k], uri, fmt) == Success(docs[k]);
        TranscriptDocumentContents(transcriptChunks[k], uri, fmt);
        KindOfDocument(docs[k]);
      } else {
        assert SceneDocument(sceneChunks[k - n], uri, fmt) == Success(docs[k]);
        SceneDocumentContents(sceneChunks[k - n], uri, fmt);
        KindOfDocument(docs[k]);
      }
    }
  }

  /** A document's type tag and its content prefix name the same kind. */
  lemma KindOfDocument(doc: Document)
    requires "type" in doc.metadata
    requires
      || (doc.metadata["type"] == Str(TranscriptType) && StartsWith(doc.content, TranscriptPrefix))
      || (doc.metadata["type"] == Str(SceneType) && StartsWith(doc.content, ScenePrefix))
    ensures doc.metadata["type"] == Str(TranscriptType) <==> !StartsWith(doc.content, ScenePrefix)
    ensures doc.metadata["type"] == Str(SceneType) <==> !StartsWith(doc.content, TranscriptPrefix)
  {
    assert TranscriptPrefix[0] != ScenePrefix[0];
  }

  /** A chunk without `title` makes `add_chunks` raise, whichever list it is in. */
  lemma TitleRequired(metadata: ChunkMetadata, fmt: Value -> string)
    requires
      || (metadata.transcriptChunks.Some? &&
          exists i :: 0 <= i < |metadata.transcriptChunks.value| && "title" !in metadata.transcriptChunks.value[i])
      || (metadata.sceneChunks.Some? &&
          exists j :: 0 <= j < |metadata.sceneChunks.value| && "title" !in metadata.sceneChunks.value[j])
    ensures BuildDocuments(metadata, fmt).Failure?
  {
  }
}
