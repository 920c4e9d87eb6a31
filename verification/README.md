# VideoRag pipeline transformations in Dafny

VideoRag downloads a video, captions sampled frames, chunks the transcript and
the captions, stores the chunks in a vector database, and answers questions
from the retrieved chunks. Almost all of that is glue around external
services. This project models the five pure transformations between those
calls, with every external call replaced by a function parameter (an oracle):

- **Download-output parser** (`VideoDownloader`). It turns the captured
  standard output of the downloader tool into the `.mp4` video path and the
  `.m4a` audio path, or into an error.
- **Frame sampler and batcher** (`SceneExtractor`). It visits frames
  `0, fi, 2·fi, … < total_frames` and buffers the frames it reads. It
  captions a batch when the batch is full or the last index is reached, and
  stops at the first failed read. When the captioner fails, the batch gets
  one placeholder caption per frame.
- **Chunk time alignment** (`MetadataChunker`). Each splitter chunk gets the
  record at its running word count.
- **Document construction** (`VectorDb`). `add_chunks` maps transcript and
  scene chunks to typed documents and adds them in one call.
- **Retrieval shaping and context rendering** (`Retriever`). `query` maps the
  search hits one to one, and `get_relevant_context` renders them as numbered
  text blocks.

`MetadataProcessor` composes the chunkers with `add_chunks`, as
`process_video` does. It proves that the composition can never store a
document: the chunkers' records have no `title` key, and `add_chunks`
subscripts `title`.

Shared modules:
- `Wrappers`: `Option`, `Result` and a first-failure `MapResult`.
- `Arith`: Python's `min` on integers.
- `PyValue`: Python values held in dicts, dicts as maps, and the exceptions
  the code can raise.
- `PyStr`: `str.split`, `str.join`, `startswith`/`endswith`, whitespace
  word splitting, and decimal rendering of the block numbers.

Python dicts are `map<string, Value>`. A subscript of a missing key is a
`KeyError` carrying that key. Where one statement subscripts several keys,
the model reads them in the source's evaluation order, so the error is that
of the first read that fails. This includes the keys of the `metadata` dict
`add_chunks` receives, which is a record of optional fields. Floats are
`real`. `str()` of a non-string value is the oracle `fmt`.

## Model

| member | source | states |
|---|---|---|
| VideoDownloader.PathOf | video_rag/api/services/video_downloader.py:57 | The path is everything after the first `": "` of the line, verbatim. A line without `": "` raises `IndexError`. |
| VideoDownloader.PathOfDestinationLine | video_rag/api/services/video_downloader.py:56-57 | A path written after the destination prefix is read back unchanged, even when it holds `": "` itself. |
| VideoDownloader.ParseDownloadOutput | video_rag/api/services/video_downloader.py:58-66 | On success the video path ends in `.mp4` and the audio path ends in `.m4a`. |
| VideoDownloader.Scan | video_rag/api/services/video_downloader.py:55-61 | The loop over output lines can raise only `IndexError`, from a destination line without `": "`. Its full behaviour is stated by `ScanMatchesReference`. |
| VideoDownloader.ScanKeepsSuffixes | video_rag/api/services/video_downloader.py:55-61 | The scan only ever records a `.mp4` path as the video and a `.m4a` path as the audio. |
| VideoDownloader.LastWithSuffix | video_rag/api/services/video_downloader.py:58-61 | Picks the last path with the given suffix. It is absent exactly when no path has the suffix. |
| VideoDownloader.ScanMatchesReference | video_rag/api/services/video_downloader.py:55-61 | The loop equals a reference: `IndexError` if any destination line lacks `": "`. Otherwise the last `.mp4` and the last `.m4a` destinations override the starting values. Other lines play no part. |
| VideoDownloader.ParseMatchesReference | video_rag/api/services/video_downloader.py:51-66 | The whole parse equals the reference: `IndexError` for a malformed destination line, `OutputNotFound` when there is no `.mp4` or no `.m4a` destination, else the last of each. |
| VideoDownloader.SuffixesExclusive | video_rag/api/services/video_downloader.py:58-61 | No path ends in both `.mp4` and `.m4a`, so the `elif` discards nothing. |
| VideoDownloader.ParseRenderRoundTrip | video_rag/api/services/video_downloader.py:51-66 | The output printed for a `.mp4` video path and a `.m4a` audio path, neither holding a line break, parses back to exactly those two paths. |
| SceneExtractor.Truncate | video_rag/api/services/scene_extractor.py:22 | `int()` of a float truncates toward zero: the result is the integer nearest zero within 1 of `x`. |
| SceneExtractor.FrameInterval | video_rag/api/services/scene_extractor.py:22 | `int(fps * interval)` is zero exactly when the product lies strictly between -1 and 1. A non-zero interval implies a non-zero frame rate, so `frame_count / fps` cannot divide by zero. |
| SceneExtractor.SampledIndices | video_rag/api/services/scene_extractor.py:30 | `range(0, total_frames, frame_interval)`. With a positive step it lists exactly the multiples of the step in `[0, total_frames)`, in increasing order. With a negative step it lists exactly the multiples in `(total_frames, 0]`, in decreasing order. Either pair of facts determines the list. |
| SceneExtractor.LastSampleTest | video_rag/api/services/scene_extractor.py:40 | With a positive frame interval, the test `frame_count + frame_interval >= total_frames` holds exactly at the last visited index. |
| SceneExtractor.DescribeFrames | video_rag/api/services/scene_extractor.py:55-64 | The captions are the model's output. When the model raises, they are `len(frames)` copies of `"Error in description"`. |
| SceneExtractor.SceneRecord | video_rag/api/services/scene_extractor.py:43-46 | A scene record has exactly `start_time` and `description`, and no `end_time`. |
| SceneExtractor.FlushRecords | video_rag/api/services/scene_extractor.py:38-46 | One flush adds `min(#frames, #captions)` records (the `zip`). Record `i` pairs frame `i`'s time `index / fps` with caption `i`. |
| SceneExtractor.FirstFailure | video_rag/api/services/scene_extractor.py:31-34 | The position of the first failed read, or the number of positions when every read succeeds. |
| SceneExtractor.RecordsOfFrames | video_rag/api/services/scene_extractor.py:42-46 | The scenes never outnumber the flushed frames, and each has exactly `start_time` and `description`. With complete captions there is one scene per flushed frame, in flush order, timed `index / fps`. |
| SceneExtractor.CompleteScenes | video_rag/api/services/scene_extractor.py:33-53 | Assuming the captioner returned one caption per frame for every batch: with every read successful there is one scene per visited index, in order. With `batch_size >= 1`, after a failed read the scene count is a multiple of `batch_size`, is at most the failure position, and is less than one batch short of it. |
| SceneExtractor.VisitFrame | video_rag/api/services/scene_extractor.py:36-48 | One successful read keeps the loop invariant. The flushed batches followed by the buffer are the samples of the visited positions so far. The scenes are the flushed batches' records. Every frame is the one read at its index. With `batch_size >= 1` the buffer is never full, and with a positive frame interval as well every batch but the last is full. With a positive frame interval and `batch_size < 1`, nothing is flushed before the last index. |
| SceneExtractor.SampleFrames | video_rag/api/services/scene_extractor.py:24-53 | Each batch holds at least one frame, and with `batch_size >= 1` at most `batch_size`. Each frame is the frame read at its own index. The batches partition a prefix of the visited indices that stops before the first failed read. With a positive step, all frames are flushed when no read fails. With a positive step and `batch_size >= 1`, after a failed read exactly the whole batches before the failure are flushed, and the fewer than `batch_size` frames still buffered are dropped and produce no scene. With a positive step and `batch_size < 1` there is at most one batch, and after a failed read none. |
| SceneExtractor.Extract | video_rag/api/services/scene_extractor.py:21-53 | A zero frame interval raises `ValueError` (the `range` zero step). Otherwise the scenes are the records of the returned batches. The batches are frames read at their own index, and they partition a prefix of the visited indices before the first failed read. With a positive frame interval this fixes the batches, and so the scenes, whatever the captioner returns. With a positive frame interval and complete captions, every read succeeding gives one scene per visited index, timed `index / fps`. After a failed read with `batch_size >= 1` only whole batches survive. |
| MetadataChunker.JoinField | video_rag/api/services/metadata_chunker.py:15 | The join raises `KeyError` when an item lacks the key, else `TypeError` when a value is not a string. On success the joined text's words are the items' words in item order, so its word count is the sum of the items' word counts. |
| PyStr.WordsOfJoin | video_rag/api/services/metadata_chunker.py:15 | Splitting texts joined with single spaces gives the concatenation of each text's words, since the space adds no word and merges none. |
| MetadataChunker.SumWordsConcat | video_rag/api/services/metadata_chunker.py:15 | The summed word counts equal the length of the concatenated word lists. |
| MetadataChunker.StartIndexStep | video_rag/api/services/metadata_chunker.py:21-27 | Each chunk's start index is the previous start plus the previous chunk's word count. So one chunk's end index is the next chunk's start index. |
| MetadataChunker.AlignChunks | video_rag/api/services/metadata_chunker.py:20-27 | On success there is one record per splitter chunk. |
| MetadataChunker.AlignChunksSucceeds | video_rag/api/services/metadata_chunker.py:20-27 | The chunk loop succeeds exactly when every chunk's record can be built at its running word count. |
| MetadataChunker.AlignChunksRecords | video_rag/api/services/metadata_chunker.py:20-28 | On success there is one record per chunk, in chunk order, each built at its running word count. |
| MetadataChunker.AlignChunksFirstError | video_rag/api/services/metadata_chunker.py:20-27 | On failure, the error is that of the first chunk whose record cannot be built. |
| MetadataChunker.TranscriptRecordAt | video_rag/api/services/metadata_chunker.py:21-26 | `start_time` is read at the unclamped start index, and an index past the end raises `IndexError`. `end_time` is read at the end index clamped to the last segment, so that read is always in range. The text is the chunk verbatim. |
| MetadataChunker.TranscriptRecordOf | video_rag/api/services/metadata_chunker.py:21-26 | A chunk's record succeeds exactly when its start index is a segment with a start time and its clamped end segment has an end time. The record is then the chunk's times and verbatim text. |
| MetadataChunker.ChunkTranscript | video_rag/api/services/metadata_chunker.py:14-29 | The join's `KeyError` or `TypeError` is `chunk_transcript`'s error. With string texts, `chunk_transcript` succeeds exactly when every splitter chunk is readable at its running word count. It then returns one record per chunk, in splitter order, with the start time at the chunk's start index, the end time at the clamped next start, and the chunk's verbatim text. |
| MetadataChunker.TranscriptAlignment | video_rag/api/services/metadata_chunker.py:18-29 | The same statement for any chunk list handed to the loop. |
| MetadataChunker.ChunkTranscriptStartOutOfRange | video_rag/api/services/metadata_chunker.py:23 | A chunk whose start index is at least the number of segments makes `chunk_transcript` fail. |
| MetadataChunker.SceneRecordAt | video_rag/api/services/metadata_chunker.py:39-42 | A scene chunk record has exactly `start_time`, read at the unclamped start index, and `descriptions`, the chunk split on `". "`. It has no `end_time`. |
| MetadataChunker.SceneRecordOf | video_rag/api/services/metadata_chunker.py:39-42 | A scene chunk record's sentences join back with `". "` to the chunk text. |
| MetadataChunker.ChunkScenes | video_rag/api/services/metadata_chunker.py:31-45 | The join's `KeyError` or `TypeError` is `chunk_scenes`'s error. With string descriptions, `chunk_scenes` succeeds exactly when every chunk's start index is a scene with a start time. It then returns one record per chunk, in splitter order, with that start time and the chunk's sentences. |
| MetadataChunker.SceneAlignment | video_rag/api/services/metadata_chunker.py:35-45 | The same statement for any chunk list handed to the loop. |
| MetadataChunker.ChunksLackTitle | video_rag/api/services/metadata_chunker.py:22-42 | No record from either chunker has a `title` or a `description` key. |
| VectorDb.FirstMissing | video_rag/api/services/vector_db.py:21-27 | Finds the first key in evaluation order that the dict lacks, which is the key a run of subscripts raises on. It is absent exactly when every key is present. |
| VectorDb.TranscriptDocument | video_rag/api/services/vector_db.py:20-30 | A transcript chunk becomes a document exactly when it has `text`, `start_time`, `end_time` and `title` and the metadata dict has `video_uri`. |
| VectorDb.TranscriptDocumentContents | video_rag/api/services/vector_db.py:20-30 | A transcript document's content is `"Transcript: "` plus the text. Its metadata has the six keys, type `transcript`, the shared `video_uri`, the chunk's times and title, and the description defaulting to `"N/A"`. |
| VectorDb.TranscriptDocumentError | video_rag/api/services/vector_db.py:21-27 | A failing transcript chunk raises `KeyError` for the first of `text`, `start_time`, `end_time`, `title` it lacks. When the metadata dict has no `video_uri`, that key is raised after `end_time` and before `title`. |
| VectorDb.TranscriptDocumentRoundTrip | video_rag/api/services/vector_db.py:20-30 | A complete transcript chunk with a string text is recovered from its document. |
| VectorDb.SceneDocument | video_rag/api/services/vector_db.py:34-44 | A scene chunk becomes a document exactly when it has `description`, `start_time` and `title`, the start time is a number, and the metadata dict has `video_uri`. The eager `start_time + 2` default is evaluated even when `end_time` is present. |
| VectorDb.SceneDocumentContents | video_rag/api/services/vector_db.py:34-44 | A scene document's content is `"Scene: "` plus the description. Its metadata has the six keys, type `scene`, the shared `video_uri`, the start time, the end time defaulting to `start_time + 2`, the title, and the chunk's description. |
| VectorDb.SceneDocumentError | video_rag/api/services/vector_db.py:35-41 | A failing scene chunk raises `TypeError` exactly when `description` is present and the start time is present but not a number. Otherwise it raises `KeyError` for the first of `description`, `start_time`, `title` it lacks. When the metadata dict has no `video_uri`, that key is raised after the `TypeError` check and before `title`. |
| VectorDb.SceneDocumentRoundTrip | video_rag/api/services/vector_db.py:34-44 | A complete scene chunk with an end time, a numeric start time and a string description is recovered from its document. |
| VectorDb.BuildDocuments | video_rag/api/services/vector_db.py:16-44 | A missing `transcript_chunks` raises first. The document list exists exactly when both chunk lists are present and every chunk converts. It has `len(transcript_chunks) + len(scene_chunks)` documents: transcripts first, then scenes, each in input order. |
| VectorDb.BuildDocumentsFirstError | video_rag/api/services/vector_db.py:19-44 | On failure, the error is the first in source order: a missing `transcript_chunks`, else the first failing transcript chunk, else a missing `scene_chunks`, else the first failing scene chunk. |
| VectorDb.AddChunks | video_rag/api/services/vector_db.py:15-47 | `add_chunks(metadata)`, with `video_uri`, `transcript_chunks` and `scene_chunks` each possibly missing. All documents go in with one `add_documents` call. Either the document list is built and every document is appended after the existing ones, or building it raises the error `BuildDocuments` raises and the store is unchanged. |
| VectorDb.MissingUri | video_rag/api/services/vector_db.py:19-40 | `video_uri` is read once per chunk and nowhere else. Without it, the document list is built exactly when both chunk lists are present and empty. |
| VectorDb.DocumentsTagged | video_rag/api/services/vector_db.py:19-44 | Every document has the six metadata keys and the single `video_uri`. Its type tag and content prefix say transcript exactly for the first `len(transcript_chunks)` documents and scene for the rest. |
| VectorDb.TitleRequired | video_rag/api/services/vector_db.py:27-41 | A chunk without `title`, in either list, makes `add_chunks` raise. |
| Retriever.Query | video_rag/api/services/retriever.py:9-31 | One entry per search hit, in hit order, each copying the hit's content, metadata and score unchanged. |
| Retriever.QueryRoundTrip | video_rag/api/services/retriever.py:23-31 | Reading the hits back from `query`'s entries gives exactly the search result. |
| Retriever.BlockLines | video_rag/api/services/retriever.py:44-51 | A block has seven lines when the metadata has `end_time` and six otherwise. |
| Retriever.Render | video_rag/api/services/retriever.py:44-51 | A rendered block ends in a blank line. |
| Retriever.Block | video_rag/api/services/retriever.py:44-51 | A block renders exactly when the metadata has `type`, `start_time` and `video_uri`. |
| Retriever.ContextFrom | video_rag/api/services/retriever.py:41-53 | The context succeeds exactly when every result renders. An empty result list gives `""`. |
| Retriever.Context | video_rag/api/services/retriever.py:41-53 | The loop over `query`'s entries succeeds exactly when every entry renders. An empty result list gives `""`. |
| Retriever.GetRelevantContext | video_rag/api/services/retriever.py:33-53 | `get_relevant_context` succeeds exactly when every hit's metadata has `type`, `start_time` and `video_uri`. |
| Retriever.ContextFromBlocks | video_rag/api/services/retriever.py:41-53 | The context is the concatenation, in result order, of the results' blocks, numbered from the first number. |
| Retriever.ContextNumbered | video_rag/api/services/retriever.py:43-44 | Blocks are numbered 1..n in result order. |
| Retriever.BlockHeaderNumber | video_rag/api/services/retriever.py:44 | A block header is `Chunk <n>:`, and the number reads back as the block's index. |
| Retriever.EndTimeLineIff | video_rag/api/services/retriever.py:48-49 | A block has an `End Time:` line exactly when the metadata has `end_time`. |
| Retriever.RenderRoundTrip | video_rag/api/services/retriever.py:44-51 | A block's lines are recovered by splitting its text, without the final blank line, on line breaks. |
| Retriever.BlockError | video_rag/api/services/retriever.py:46-50 | A non-renderable result raises `KeyError` for the first of `type`, `start_time`, `video_uri` its metadata lacks. |
| MetadataProcessor.ProcessVideo | video_rag/api/services/metadata_processor.py:15-26 | Source order: `transcript` is read and chunked, then `frame_descriptions` is read and chunked, then `video_uri` is read. The first missing key or chunker error is the result. Only when all succeed is `add_chunks` called, on the dict of lines 19-23. Any raise leaves the store unchanged. |
| MetadataProcessor.ChunkerOutputRejected | video_rag/api/services/metadata_processor.py:15-26 | On chunker output, the document list is built exactly when both chunk lists are empty. A transcript chunk raises `KeyError('title')`, and otherwise a scene chunk raises `KeyError('description')`. |
| MetadataProcessor.ProcessVideoNeverStores | video_rag/api/services/metadata_processor.py:15-26 | `process_video` never adds a document. It either raises, or both chunkers returned empty lists. |
| MetadataProcessor.StoredDocumentsRender | video_rag/api/services/vector_db.py:22-43 | Documents that `add_chunks` stores, with their six metadata keys, always render in the context of video_rag/api/services/retriever.py lines 44-51, and every block has its `End Time:` line. |

## Left out

- Running the downloader (`subprocess.run`, `CalledProcessError` and its logging). The model starts from the captured standard output, and the exception raised at video_rag/api/services/video_downloader.py:64 is the `OutputNotFound` error.
- Opening the video, decoding and colour conversion (`cv2`), `cap.set`/`cap.read`, and `cap.release`. The reader is an oracle from frame index to an optional frame. The "failed to open" exception is not modelled. `fps` and `total_frames` are inputs.
- `tqdm` progress reporting and `logging`: these have no effect on the results.
- The BLIP captioning model: an oracle from a batch of frames to an optional caption list. `None` stands for any exception, which the fallback catches.
- The constructor defaults `interval=10` and `batch_size=16`: the interval and the batch size are parameters.
- Floating-point arithmetic: times and the frame rate are exact `real`s. `int(fps * interval)` is truncation toward zero of the exact product.
- langchain's `RecursiveCharacterTextSplitter` (chunk size 500, overlap 50): an oracle from the joined text to the chunk texts. The contracts hold for any chunk list.
- Python's `str()` of non-string values (float and list rendering in f-strings): the oracle `fmt`. Strings are rendered verbatim.
- VectorDb.AddChunks: the `add_documents` call is modelled as an append that never raises. Chroma's own checks, such as a rejected empty ID list in some releases, are not part of this model. So every success statement about `add_chunks` is a statement about building the document list.
- Embeddings, Chroma's own metadata validation, `persist()` and the final `print` of `process_video`. The store is the sequence of documents added so far.
- The `top_k=3` default of `query` and `get_relevant_context`: `top_k` is always a parameter.
- The similarity search: an oracle from question and `k` to a list of `(document, score)` hits. The call passes `top_k` as `k` and no filter. Nothing constrains which stored documents it returns.
- Question-intent classification and metadata-filtered search: these are not in the code, which searches without a filter, so the code is what is modelled.
- `views.py` request handling, `transcript_extractor.py` (Deepgram, translation, WebVTT files), `models.py`, `serializers.py` and `urls.py`: orchestration, foreign calls and declarations. `views.py` lines 47-60 compose the chunkers with `add_chunks` in the same way as `process_video`, so `ChunkerOutputRejected` covers them as well.
