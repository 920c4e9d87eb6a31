/** `MetadataRetriever.query` and `get_relevant_context`: the store's hits
    are reshaped one to one, then rendered as numbered text blocks. The
    similarity search itself is an oracle `search(question, k)`; it takes
    no filter, as the call passes none. */
module Retriever {
  import opened Wrappers
  import opened PyValue
  import opened PyStr
  import opened VectorDb

  /** One `(doc, score)` pair of `similarity_search_with_score`. */
  datatype Hit = Hit(doc: Document, score: real)

  /** One entry of `query`'s result: `{'content', 'metadata', 'relevance_score'}`. */
  datatype Retrieved = Retrieved(content: string, metadata: Dict, score: real)

  function Shape(hit: Hit): Retrieved {
    Retrieved(hit.doc.content, hit.doc.metadata, hit.score)
  }

  /** The hit an entry was shaped from. */
  function HitOf(r: Retrieved): Hit {
    Hit(Document(r.content, r.metadata), r.score)
  }

  /** `query(question, top_k)`: one entry per hit, in hit order, each
      holding its hit's content, metadata and score unchanged. */
  function Query(question: string, topK: int, search: (string, int) -> seq<Hit>): (r: seq<Retrieved>)
    ensures |r| == |search(question, topK)|
    ensures forall i :: 0 <= i < |r| ==> HitOf(r[i]) == search(question, topK)[i]
  {
    var hits := search(question, topK);
    seq(|hits|, i requires 0 <= i < |hits| => Shape(hits[i]))
  }

  /** Reading the hits back from `query`'s entries gives exactly what the
      search returned. */
  lemma QueryRoundTrip(question: string, topK: int, search: (string, int) -> seq<Hit>)
    ensures var r := Query(question, topK, search);
      seq(|r|, i requires 0 <= i < |r| => HitOf(r[i])) == search(question, topK)
  {
  }

  // ---------------------------------------------------------------------
  // get_relevant_context

  const ChunkLabel: string := "Chunk "
  const ContentLabel: string := "Content: "
  const TypeLabel: string := "Type: "
  const StartTimeLabel: string := "Start Time: "
  const EndTimeLabel: string := "End Time: "
  const VideoUriLabel: string := "Video URI: "
  const ScoreLabel: string := "Relevance Score: "

  /** The metadata keys a block subscripts, in evaluation order. */
  const ContextKeys: seq<string> := ["type", "start_time", "video_uri"]

  /** An entry whose block can be rendered: its metadata has a type, a
      start time and a video URI. */
  predicate Renderable(r: Retrieved) {
    {"type", "start_time", "video_uri"} <= r.metadata.Keys
  }

  /** The lines of block `idx`, without their line breaks. */
  function BlockLines(idx: nat, r: Retrieved, fmt: Value -> string): (lines: seq<string>)
    requires Renderable(r)
    ensures |lines| == if "end_time" in r.metadata then 7 else 6
  {
    var md := r.metadata;
    [ChunkLabel + Decimal(idx) + ":",
     ContentLabel + r.content,
     TypeLabel + Format(md["type"], fmt),
     StartTimeLabel + Format(md["start_time"], fmt)]
    + (if "end_time" in md then [EndTimeLabel + Format(md["end_time"], fmt)] else [])
    + [VideoUriLabel + Format(md["video_uri"], fmt),
       ScoreLabel + Format(Num(r.score), fmt)]
  }

  /** A block as appended to the context: every line ends in a line
      break and one more line break leaves a blank line. */
  function Render(lines: seq<string>): (text: string)
    requires |lines| >= 1
    ensures EndsWith(text, "\n\n")
  {
    Join(lines, "\n") + "\n\n"
  }

  /** The text of block `idx`. */
  function BlockText(idx: nat, r: Retrieved, fmt: Value -> string): string
    requires Renderable(r)
  {
    Render(BlockLines(idx, r, fmt))
  }

  /** Block `idx`, or the `KeyError` its first missing metadata key raises. */
  function Block(idx: nat, r: Retrieved, fmt: Value -> string): (b: Result<string, PyError>)
    ensures b.Success? <==> Renderable(r)
  {
    if "type" !in r.metadata then Failure(KeyError("type"))
    else if "start_time" !in r.metadata then Failure(KeyError("start_time"))
    else if "video_uri" !in r.metadata then Failure(KeyError("video_uri"))
    else Success(BlockText(idx, r, fmt))
  }

  /** The blocks for `results`, numbered from `first`. */
  function ContextFrom(results: seq<Retrieved>, first: nat, fmt: Value -> string): (c: Result<string, PyError>)
    ensures c.Success? <==> forall k :: 0 <= k < |results| ==> Renderable(results[k])
    ensures |results| == 0 ==> c == Success("")
    decreases |results|
  {
    if |results| == 0 then Success("")
    else
      var block :- Block(first, results[0], fmt);
      var rest :- ContextFrom(results[1..], first + 1, fmt);
      assert forall k :: 1 <= k < |results| ==> results[k] == results[1..][k - 1];
      Success(block + rest)
  }

  /** `get_relevant_context(question, top_k)` on the entries `query` returned. */
  function Context(results: seq<Retrieved>, fmt: Value -> string): (c: Result<string, PyError>)
    ensures c.Success? <==> forall k :: 0 <= k < |results| ==> Renderable(results[k])
    ensures |results| == 0 ==> c == Success("")
  {
    ContextFrom(results, 1, fmt)
  }

  function GetRelevantContext(question: string, topK: int, search: (string, int) -> seq<Hit>, fmt: Value -> string): (c: Result<string, PyError>)
    ensures c.Success? <==> forall i :: 0 <= i < |search(question, topK)| ==>
      {"type", "start_time", "video_uri"} <= search(question, topK)[i].doc.metadata.Keys
  {
    var results := Query(question, topK, search);
    assert forall i :: 0 <= i < |results| ==> results[i].metadata == search(question, topK)[i].doc.metadata by {
      forall i | 0 <= i < |results| ensures results[i].metadata == search(question, topK)[i].doc.metadata {
        assert HitOf(results[i]) == search(question, topK)[i];
      }
    }
    Context(results, fmt)
  }

  // ---------------------------------------------------------------------
  // Properties of the rendered context

  /** The block for result `k` of `results`, numbered `first + k`. */
  function NumberedBlocks(results: seq<Retrieved>, first: nat, fmt: Value -> string): (blocks: seq<string>)
    requires forall k :: 0 <= k < |results| ==> Renderable(results[k])
  {
    seq(|results|, k requires 0 <= k < |results| && Renderable(results[k]) => BlockText(first + k, results[k], fmt))
  }

  lemma JoinEmptyHead(parts: seq<string>)
    requires |parts| > 0
    ensures Join(parts, "") == parts[0] + Join(parts[1..], "")
  {
  }

  /** Dropping the first result shifts the numbering by one. */
  lemma NumberedBlocksTail(results: seq<Retrieved>, first: nat, fmt: Value -> string)
    requires |results| > 0
    requires forall k :: 0 <= k < |results| ==> Renderable(results[k])
    ensures forall k :: 0 <= k < |results[1..]| ==> Renderable(results[1..][k])
    ensures NumberedBlocks(results, first, fmt)[0] == BlockText(first, results[0], fmt)
    ensures NumberedBlocks(results, first, fmt)[1..] == NumberedBlocks(results[1..], first + 1, fmt)
  {
    var rest := results[1..];
    assert forall k :: 0 <= k < |rest| ==> rest[k] == results[k + 1];
    var blocks := NumberedBlocks(results, first, fmt);
    var later := NumberedBlocks(rest, first + 1, fmt);
    forall k | 0 <= k < |later| ensures blocks[1..][k] == later[k] {
      var idx := first + 1 + k;
      assert blocks[k + 1] == BlockText(idx, results[k + 1], fmt);
      assert later[k] == BlockText(idx, rest[k], fmt);
    }
  }

  /** The context is the concatenation, in result order, of the results'
      blocks, and the block for the `k`-th result carries number `first + k`. */
  lemma {:induction false} ContextFromBlocks(results: seq<Retrieved>, first: nat, fmt: Value -> string)
    requires forall k :: 0 <= k < |results| ==> Renderable(results[k])
    ensures ContextFrom(results, first, fmt) == Success(Join(NumberedBlocks(results, first, fmt), ""))
    decreases |results|
  {
    if |results| > 0 {
      NumberedBlocksTail(results, first, fmt);
      ContextFromBlocks(results[1..], first + 1, fmt);
      JoinEmptyHead(NumberedBlocks(results, first, fmt));
    }
  }

  /** Blocks are numbered 1..n in result order. */
  lemma ContextNumbered(results: seq<Retrieved>, fmt: Value -> string)
    requires forall k :: 0 <= k < |results| ==> Renderable(results[k])
    ensures Context(results, fmt) == Success(Join(NumberedBlocks(results, 1, fmt), ""))
    ensures forall k :: 0 <= k < |results| ==>
      NumberedBlocks(results, 1, fmt)[k] == BlockText(k + 1, results[k], fmt)
  {
    ContextFromBlocks(results, 1, fmt);
  }

  /** The header of block `idx` reads back as `idx`. */
  lemma BlockHeaderNumber(idx: nat, r: Retrieved, fmt: Value -> string)
    requires Renderable(r)
    ensures var header := BlockLines(idx, r, fmt)[0];
      && StartsWith(header, ChunkLabel)
      && EndsWith(header, ":")
      && ParseDecimal(header[|ChunkLabel|..|header| - 1]) == idx
  {
    var header := BlockLines(idx, r, fmt)[0];
    assert header[|ChunkLabel|..|header| - 1] == Decimal(idx);
    ParseDecimalRoundTrip(idx);
  }

  /** Among a block's logical lines (before they are joined), one starts
      with `End Time:` exactly when the metadata has `end_time`. The
      rendered text can hold more such lines, from line breaks inside the
      content or the metadata values. */
  lemma EndTimeLineIff(idx: nat, r: Retrieved, fmt: Value -> string)
    requires Renderable(r)
    ensures var lines := BlockLines(idx, r, fmt);
      (exists i :: 0 <= i < |lines| && StartsWith(lines[i], EndTimeLabel)) <==> "end_time" in r.metadata
  {
    var lines := BlockLines(idx, r, fmt);
    if "end_time" in r.metadata {
      assert StartsWith(lines[4], EndTimeLabel);
    } else {
      forall i | 0 <= i < |lines| ensures !StartsWith(lines[i], EndTimeLabel) {
        assert lines[i][0] != 'E';
      }
    }
  }

  /** The block's lines can be read back from its text when none of them
      holds a line break of its own. */
  lemma RenderRoundTrip(lines: seq<string>)
    requires |lines| >= 1
    requires forall k :: 0 <= k < |lines| ==> '\n' !in lines[k]
    ensures var text := Render(lines);
      Split(text[..|text| - 2], "\n") == lines
  {
    var text := Render(lines);
    assert text[..|text| - 2] == Join(lines, "\n");
    SplitJoin(lines, '\n');
  }

  /** Which key a non-renderable entry's block raises on: the first of
      `type`, `start_time`, `video_uri` that its metadata lacks. */
  lemma BlockError(idx: nat, r: Retrieved, fmt: Value -> string)
    requires !Renderable(r)
    ensures FirstMissing(r.metadata, ContextKeys).Some?
    ensures Block(idx, r, fmt) == Failure(KeyError(FirstMissing(r.metadata, ContextKeys).value))
  {
    FirstMissingCons(r.metadata, "type", ["start_time", "video_uri"]);
    FirstMissingCons(r.metadata, "start_time", ["video_uri"]);
    FirstMissingCons(r.metadata, "video_uri", []);
  }
}
