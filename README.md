# VideoQnA retrieval core in Dafny

VideoQnA answers questions about YouTube videos. It downloads a video's
transcript, cuts it into overlapping chunks, and embeds and stores the
chunks in a Chroma collection. To answer a question it retrieves the
closest chunks and hands them to a local gpt4all model. When no model can
be loaded, it uses a rule-based fallback answer.

This project models that core and proves what it promises:

- `text.dfy` (module `Text`): the parts of Python's `str` the core uses.
  These are `strip`, `lower`, `in`, `startswith`, `split`, `join`,
  `replace(x, "")` and `str(int)`, all over ASCII.
- `transcripts.dfy` (module `Transcripts`): the transcript record, its
  caption segments and the video metadata.
- `chunking.dfy` (module `Chunking`): the windowed chunker of
  `VectorStore.chunk_text`, as specification functions over window
  positions, with its coverage, length and termination facts.
- `vector_store.dfy` (module `Store`): class `VectorStore`.
  - The collection is a field holding an insertion-ordered sequence of
    entries. `Valid()` says ids are unique and composed as
    `<video_id>_<chunk_index>`, and each embedding is the model's encoding
    of its document.
  - The methods change the collection as `add_transcript`, `remove_video`
    and `clear_database` do, and are proved against specification
    functions (`Indexed`, `WithoutVideo`, `Catalogue`, `Searched`).
- `llm_interface.dfy` (module `Llm`): class `LlmInterface`.
  - Context formatting, response cleaning with its 300-character cut-off,
    the prompt template, the fallback answer and the `model_type`
    dispatch.
  - Each loop method is proved against a function.
- `transcript_extractor.dfy` (module `Extractor`):
  - `extract_video_id`: the two regular expressions written out as the
    scans the regex engine makes.
  - The transcript cache, as a map from file name to transcript, with
    `extract_and_save_transcript` and `batch_extract_transcripts` as
    methods of class `TranscriptExtractor`.
- `video_qa_system.dfy` (module `QaSystem`): class `VideoQaSystem`, which
  wires the three collaborators together and turns their failures into
  `false` or an error message.
- `wrappers.dfy` (module `Wrappers`): `Option` and `Result`.

The configuration defaults are constants: chunk size 1000, overlap 200,
top-k 5, max tokens 500, collection name, embedding model
(config/config.py:24-36).

The chunker's loop does not stop at the window that reaches the end of the
text. It keeps emitting suffix chunks while `end - overlap` is still inside
the text. A 2500-character text without whitespace (chunk size 1000,
overlap 200) therefore gives four chunks: `text[0:1000]`, `text[800:1800]`,
`text[1600:2500]` and `text[2400:2500]` (`Chunking.SuffixChunkExample`).

`add_video` reads `transcript_data['metadata']['title']` only after
`add_transcript` has stored the chunks. If the metadata has no title, it
raises, and the video is reported as not added although its chunks are
stored. The metadata fields are therefore `Option`s, and
`QaSystem.AddedVideo` returns `false` in that case with the new
collection. `get_video_metadata` always supplies a title, so this arises
only for a cached transcript file without one.

## Model

| member | source | states |
|---|---|---|
| Text.Strip | src/vector_store.py:65 | the stripped string neither starts nor ends with whitespace, and is shorter when the input ended in whitespace |
| Text.StripIsSlice | src/vector_store.py:65 | a stripped string is a contiguous piece of the original |
| Text.StripSlice | src/llm_interface.py:129 | stripping a slice keeps exactly the part between its leading and trailing whitespace runs |
| Text.IsSubstringAt | src/vector_store.py:149 | Python's substring test holds exactly when the pattern occurs at some offset |
| Text.Split | src/llm_interface.py:126 | splitting on a character gives at least one piece, and no piece contains the separator |
| Text.JoinSplit | src/llm_interface.py:126 | joining the pieces of a split with the same separator gives back the string |
| Text.JoinAvoids | src/llm_interface.py:134 | a character in neither the parts nor the separator is absent from their join |
| Text.NatToString | src/vector_store.py:94 | `str(n)` is a non-empty string of decimal digits, with at least two digits from 10 on |
| Text.NatToStringInjective | src/vector_store.py:94 | different numbers print differently |
| Text.Pad2 | src/llm_interface.py:79 | the `02d` format gives exactly the tens digit and the units digit |
| Chunking.BoundaryIsEnding | src/vector_store.py:56-60 | the boundary predicate holds exactly when the two characters at `i` are one of the four sentence endings |
| Chunking.BoundaryEndsInSpace | src/vector_store.py:56 | every sentence ending finishes with whitespace |
| Chunking.LastBreak | src/vector_store.py:57-61 | the scan settles on the default when no ending starts in the range; otherwise just after an ending, with no later ending in the range |
| Chunking.WindowEnd | src/vector_store.py:51-63 | a window ends between `start + size - 98` and `start + size + 1`; it ends at `start + size` or just after a sentence ending; when it is one past, the extra character is whitespace |
| Chunking.PieceIsStrip | src/vector_store.py:65 | the piece of a window is `text[start:end].strip()`, with Python's slice clamping |
| Chunking.WindowsUnfold | src/vector_store.py:50-69 | the next start `end - overlap` is strictly after the current start, so the scan advances |
| Chunking.WindowsFit | src/vector_store.py:48-71 | every window starts inside the text at or after the first start, and its end obeys the window-end bounds |
| Chunking.WindowsChain | src/vector_store.py:48-71 | the scan is empty exactly when the start is past the text; its first window starts there; each next start is the previous `end - overlap`, still inside the text and strictly larger; the last `end - overlap` is at or past the end |
| Chunking.WindowsCover | src/vector_store.py:48-71 | every offset of the text lies in some window of the scan |
| Chunking.PieceFacts | src/vector_store.py:65 | a piece is never longer than the chunk size (the one-past character is stripped) and occurs in the text |
| Chunking.ChunksOfFacts | src/vector_store.py:65-67 | at most one chunk per window; each chunk is non-empty, at most `size` long and taken from the text |
| Chunking.ChunksFacts | src/vector_store.py:44-67 | a short text comes back as `[text]` unchanged, even when empty; otherwise every chunk is non-empty, at most `size` long and a contiguous substring of the text |
| Chunking.AtLeastTwoWindows | src/vector_store.py:50-71 | a text longer than the chunk size, with a positive overlap, always gets two windows or more; this counts windows, not chunks: a window whose stripped piece is empty gives no chunk, so "a" followed by 1500 spaces gives one chunk |
| Chunking.NoBreakWithoutSpace | src/vector_store.py:57-61 | a text without whitespace has no sentence ending, so the window end stays at `start + size` |
| Chunking.SuffixWindowsExample | src/vector_store.py:50-71 | 2500 characters without whitespace, at 1000/200, give windows starting at 0, 800, 1600 and 2400 |
| Chunking.SuffixChunkExample | src/vector_store.py:44-73 | that text gives four chunks, the last `text[2400:]` lying inside the third |
| Store.MatchingSegmentsFacts | src/vector_store.py:142-152 | the kept segments are exactly those whose lower-cased text occurs in the lower-cased chunk, in input order, each kept as many times as it occurs in the input, and there are no more than the segments given |
| Store.EarliestStart | src/vector_store.py:113 | the result is a lower bound of the segments' starts and one of them |
| Store.LatestEnd | src/vector_store.py:114 | the result is an upper bound of the segments' ends and one of them |
| Store.MetadataTimes | src/vector_store.py:99-114 | a chunk has a time range exactly when it quotes a segment; the range runs from the earliest quoted start to the latest quoted end, both attained; `segments_count` is the number of matched segments, repeats included, and at most the number of segments; `text_length` is the chunk's length |
| Store.ComposeIdInjective | src/vector_store.py:94 | two (video, chunk index) pairs with the same composed id are the same pair |
| Store.SplitByVideoCount | src/vector_store.py:184-199 | a video's entries and the other entries together are the whole collection |
| Store.OfVideoMembers | src/vector_store.py:188-190 | `get(where={"video_id": v})` returns exactly the entries of video `v` |
| Store.WithoutVideoMembers | src/vector_store.py:192-193 | after deleting video `v`, exactly the other videos' entries remain |
| Store.WithoutVideoInOrder | src/vector_store.py:192-193 | deleting a video keeps the remaining entries in their order |
| Store.WithoutVideoTwice | src/vector_store.py:184-199 | removing a video twice is removing it once, and none of its entries remain |
| Store.RemoveByIds | src/vector_store.py:188-193 | deleting the ids of video `v`'s entries deletes exactly video `v`, because ids of other videos differ |
| Store.WithoutVideoValid | src/vector_store.py:184-199 | removing a video keeps ids unique and embeddings consistent |
| Store.WithoutAbsentVideo | src/vector_store.py:192-199 | removing a video with no entries changes nothing |
| Store.EncodeAll | src/vector_store.py:124-129 | either one vector per document, each the document's encoding, or a failure caused by some document that cannot be encoded |
| Store.FreshEntriesFacts | src/vector_store.py:86-129 | there are no entries exactly when some chunk cannot be encoded; otherwise one entry per chunk in order, with id `video_<i>`, the chunk as document, chunk index `i`, `text_length` the chunk's length, the metadata built from the chunk's matched segments, and the chunk's encoding |
| Store.FreshEntriesDistinct | src/vector_store.py:93-118 | the new entries all belong to the video, carry composed ids, and no two share an id |
| Store.IndexedReplaces | src/vector_store.py:82-140 | after `add_transcript` the other videos are untouched, and the video's entries are exactly the fresh ones (none when encoding raised); the count returned is the number of chunks |
| Store.ReindexIsIdempotent | src/vector_store.py:75-140 | adding a transcript and then the same video again equals adding only the later version |
| Store.IndexedValid | src/vector_store.py:75-140 | `add_transcript` keeps the collection's invariant, whether or not encoding raises |
| Store.VideoOrderFacts | src/vector_store.py:207-222 | the listing order holds each stored video exactly once; the dictionary has a record for exactly those videos |
| Store.TallyStep | src/vector_store.py:208-220 | one more entry starts its video's record with one chunk, or adds one chunk to it |
| Store.TallyCount | src/vector_store.py:208-220 | a video's record counts exactly that video's entries |
| Store.TallyFirst | src/vector_store.py:210-219 | a video's record takes its fields from the video's first entry |
| Store.CatalogueTotal | src/vector_store.py:201-222 | there is one record per video, and the chunk counts add up to the number of entries |
| Store.FormattedOrder | src/vector_store.py:172-180 | each hit is kept in place with `similarity = 1 - distance`, so closest first becomes most similar first |
| Store.SearchedFacts | src/vector_store.py:154-182 | search fails exactly when the query cannot be encoded; otherwise it returns at most `k` stored chunks, most similar first |
| Store.VectorStore.constructor | src/vector_store.py:32-35 | the store opens the persisted collection and holds the invariant |
| Store.VectorStore.ChunkText | src/vector_store.py:37-73 | the loop returns the chunks of the specification, given the termination condition |
| Store.VectorStore.WindowEndFrom | src/vector_store.py:51-63 | the boundary scan ends the window where the specification says |
| Store.VectorStore.FindSegmentsForChunk | src/vector_store.py:142-152 | the loop keeps exactly the matching segments, in order |
| Store.VectorStore.AddTranscript | src/vector_store.py:75-140 | the new collection and the count are those of `Indexed`, so the facts proved of it hold; the invariant is kept |
| Store.VectorStore.ChunkRecords | src/vector_store.py:89-118 | the loop gives every chunk its composed id and its metadata, in chunk order |
| Store.VectorStore.RemoveVideo | src/vector_store.py:184-199 | returns the number of the video's entries and removes exactly them; when the backend raises, returns 0 and changes nothing |
| Store.VectorStore.ListVideos | src/vector_store.py:201-225 | returns one record per video, with counts summing to the collection size; `[]` when the backend raises |
| Store.VectorStore.GetCollectionStats | src/vector_store.py:227-241 | returns the total chunks, the number of listed videos (never more than the chunks, and zero exactly when there are none) and the configured names; the empty dictionary when counting raises |
| Store.VectorStore.ClearDatabase | src/vector_store.py:243-256 | true and an empty collection; false and no change when `delete_collection` raises; false with the collection already emptied when `delete_collection` succeeds and re-creating it raises |
| Store.VectorStore.FormatResults | src/vector_store.py:172-180 | the loop maps each hit in order |
| Store.VectorStore.Search | src/vector_store.py:154-182 | `top_k` defaults to 5; fails exactly when the query cannot be encoded; otherwise returns at most `top_k` stored chunks, most similar first |
| Llm.TimestampSplits | src/llm_interface.py:77-78 | the seconds shown are below 60, and `60 * minutes + seconds` is the whole second the start time falls in |
| Llm.Stamp | src/llm_interface.py:75-79 | the time suffix is present exactly when the chunk has a start time |
| Llm.Blocks | src/llm_interface.py:68-83 | one block per context item |
| Llm.BlockLayout | src/llm_interface.py:69-83 | block `k` opens with `Source k+1:` and the title (or "Unknown Video"), ends with the content line, and is longer than its time-free form exactly when the item has a start time |
| Llm.ContextTextStart | src/llm_interface.py:66-84 | no context gives "No relevant context found."; otherwise the text opens with source 1 |
| Llm.KeptLinesKeep | src/llm_interface.py:128-131 | every kept line is non-empty, not a prompt heading and has no newline; no more lines are kept than given |
| Llm.KeptLineIn | src/llm_interface.py:128-131 | every line whose stripped form qualifies is kept |
| Llm.CutFacts | src/llm_interface.py:131-133 | the loop stops at the first kept line that takes the join past 300, or takes them all |
| Llm.CleanedFacts | src/llm_interface.py:122-134 | the cleaned response has no newline; it joins the first kept lines; all but the last join to at most 300; when lines were dropped, it is longer than 300 |
| Llm.ScrubIsSinglePass | src/llm_interface.py:124-125 | `replace` makes one pass, so removing `<pad>` from `<<pad>pad>` leaves `<pad>` |
| Llm.PromptLayout | src/llm_interface.py:110-120 | the prompt holds the context, then the question after it, and ends with "Answer: " |
| Llm.FollowupLayout | src/llm_interface.py:157-160 | the combined question holds the original question, then ends with the follow-up |
| Llm.FirstSentences | src/llm_interface.py:147 | each document gives one or two pieces |
| Llm.SnippetsFacts | src/llm_interface.py:142-148 | each item gives one or two snippets, and none contains a full stop |
| Llm.PreviewFacts | src/llm_interface.py:150 | the preview is at most 203 characters and ends in "..."; before that it starts the join of the first three snippets, and is all of it when it fits in 200 |
| Llm.TitleSetFacts | src/llm_interface.py:140-146 | the title set holds exactly the items' titles ("Unknown Video" when missing), no more than there are items |
| Llm.LoadOutcome | src/llm_interface.py:11-49 | answers are rule-based exactly when both loads fail; the GPU is used only when CUDA is available; a CPU device with CUDA means the CPU retry succeeded |
| Llm.AnswerNonEmpty | src/llm_interface.py:51-62 | `generate_answer` never returns an empty string |
| Llm.LocalAnswerNonEmpty | src/llm_interface.py:86-107 | the local path never returns an empty string |
| Llm.FallbackNonEmpty | src/llm_interface.py:136-155 | the fallback answer is never empty |
| Llm.AnswerDispatch | src/llm_interface.py:59-62 | the fallback type never consults the model; the local type answers with the cleaned response, the fixed message when that is empty, or the fallback over the context text when generation raises |
| Llm.LlmInterface.constructor | src/llm_interface.py:11-49 | the model type and device are those of `LoadOutcome`, whatever type was requested |
| Llm.LlmInterface.FormatContext | src/llm_interface.py:64-84 | the loop builds the context text of the specification |
| Llm.LlmInterface.CleanResponse | src/llm_interface.py:122-134 | the method returns the cleaned response of the specification |
| Llm.LlmInterface.CollectLines | src/llm_interface.py:126-133 | the loop with its early break collects exactly the cut of the kept lines |
| Llm.LlmInterface.FallbackAnswer | src/llm_interface.py:136-155 | the loop builds the fallback answer of the specification |
| Llm.LlmInterface.GenerateLocalAnswer | src/llm_interface.py:86-107 | the local path as specified, including the exception path |
| Llm.LlmInterface.GenerateAnswer | src/llm_interface.py:51-62 | dispatches on the model type, with 500 tokens by default, and the answer is never empty |
| Llm.LlmInterface.AskFollowup | src/llm_interface.py:157-160 | answers the combined question with the default token budget |
| Extractor.RunEnd | src/transcript_extractor.py:23 | `[^&\n?#]+` takes the longest run of id characters |
| Extractor.LineEnd | src/transcript_extractor.py:24 | `.*` stops at the first newline |
| Extractor.LastV | src/transcript_extractor.py:24 | the greedy `.*v=` settles on the last `v=` on the line that is followed by an id character |
| Extractor.SearchFirstFacts | src/transcript_extractor.py:23-30 | an id found by the first pattern is a non-empty run of id characters from the URL |
| Extractor.SearchSecondFacts | src/transcript_extractor.py:24-30 | an id found by the second pattern is a non-empty run of id characters from the URL |
| Extractor.ExtractVideoIdFacts | src/transcript_extractor.py:19-36 | a URL pattern's id is returned and is a non-empty piece of the URL without `&`, `?`, `#` or newline; otherwise an id is returned exactly when the input is a bare 11-character id, and it is the input itself |
| Extractor.WatchAddressRoundTrip | src/transcript_extractor.py:19-36 | the watch address the extractor builds for an id gives that id back |
| Extractor.NoDotNoUrl | src/transcript_extractor.py:22-30 | a string without a dot matches neither URL pattern |
| Extractor.BareIdRoundTrip | src/transcript_extractor.py:33-34 | a bare id is returned unchanged |
| Extractor.SegmentsOf | src/transcript_extractor.py:110-116 | one segment per fetched entry, in order, with its start, duration and text |
| Extractor.TranscriptOf | src/transcript_extractor.py:100-128 | a transcript exactly when fetching succeeds, with the id, the metadata, the formatted text and the segments |
| Extractor.FileNameInjective | src/transcript_extractor.py:133-134 | different videos are cached in different files |
| Extractor.ExtractAndSavedFacts | src/transcript_extractor.py:153-175 | no id gives `None` with no change; without refresh a cached transcript is returned as it is, whatever the service says; otherwise the result is `None` exactly when fetching fails, saving nothing, and a success is saved under its video's file |
| Extractor.CachedAfterExtraction | src/transcript_extractor.py:130-175 | after a successful extraction, asking again without refresh returns the same transcript and changes nothing |
| Extractor.BatchFacts | src/transcript_extractor.py:177-188 | a batch gives at most one transcript per URL |
| Extractor.BatchSnoc | src/transcript_extractor.py:181-185 | each URL is extracted against the cache the earlier ones left, and only its non-`None` result is appended |
| Extractor.TranscriptExtractor.constructor | src/transcript_extractor.py:15-17 | the extractor starts from the given cache and services |
| Extractor.TranscriptExtractor.ExtractTranscript | src/transcript_extractor.py:100-124 | the segment loop builds the transcript of the specification |
| Extractor.TranscriptExtractor.ExtractAndSave | src/transcript_extractor.py:153-175 | the result and the new cache are those of the specification |
| Extractor.TranscriptExtractor.BatchExtract | src/transcript_extractor.py:177-188 | the results, in input order, and the cache are those of the specification, with at most one result per URL |
| QaSystem.AddedVideoFacts | src/video_qa_system.py:32-61 | a URL without an id fails and changes nothing; success means the transcript was cached under its video's file, has a title, and is indexed: the video's entries are its fresh ones, one per chunk, and other videos are untouched |
| QaSystem.AddedVideoValid | src/video_qa_system.py:43-57 | adding a video keeps the collection's invariant, whatever fails |
| QaSystem.AddedVideosSnoc | src/video_qa_system.py:76-78 | each URL is added against the state the earlier ones left, and its outcome overwrites any earlier one |
| QaSystem.AddedVideosFacts | src/video_qa_system.py:63-83 | the result has exactly one key per distinct URL, and a URL with no video id maps to false |
| QaSystem.AddedVideosValid | src/video_qa_system.py:74-83 | a batch of additions keeps the collection's invariant |
| QaSystem.Contexts | src/video_qa_system.py:101-107 | the model gets one item per search result, in rank order, with the same document and a start time exactly when the chunk has one |
| QaSystem.AskedFacts | src/video_qa_system.py:96-113 | the reply is never empty; a failing search gives the error message; an empty collection gives the fixed not-found message; when the search finds nothing the reply does not depend on the model |
| QaSystem.VideoQaSystem.constructor | src/video_qa_system.py:24-26 | the system holds its three collaborators and keeps the store's invariant |
| QaSystem.VideoQaSystem.AddVideo | src/video_qa_system.py:32-61 | the outcome, cache and collection are those of `AddedVideo`; the store's invariant is kept |
| QaSystem.VideoQaSystem.AddVideos | src/video_qa_system.py:63-83 | the URLs are processed in order as `AddedVideos` says, and the keys are exactly the given URLs |
| QaSystem.VideoQaSystem.AskQuestion | src/video_qa_system.py:85-113 | the reply is that of `Asked`, with `top_k` defaulting to 5, and is never empty |
| QaSystem.VideoQaSystem.GetRelevantSources | src/video_qa_system.py:115-129 | the store's search with the same default; at most `top_k` stored chunks, most similar first |
| QaSystem.VideoQaSystem.ListVideos | src/video_qa_system.py:131-133 | the store's listing, with chunk counts summing to the collection size |
| QaSystem.VideoQaSystem.RemoveVideo | src/video_qa_system.py:135-155 | true exactly when the backend did not raise and the video had chunks; they are then gone and nothing else changed |
| QaSystem.VideoQaSystem.ClearKnowledgeBase | src/video_qa_system.py:163-165 | delegates to the store: true and empty; false and unchanged when the delete raises; false and empty when the re-create raises |

## Left out

- Chroma, SentenceTransformer and torch (src/vector_store.py:19-35, 124-129, 160-170) are not modelled:
  - The collection is a sequence of entries.
  - The embedding model is a function from a document to its vector, or `None` when encoding raises. A batch fails when any document fails.
  - Batch size, tensors and device transfer are not modelled.
- Store.VectorStore.Search: the nearest-neighbour ranking belongs to Chroma. It is a function whose contract (`IsRanking`: at most `k` hits, each a stored chunk, closest first) is required of it. Only the `1 - distance` formatting is computed. A query that raises inside Chroma is not modelled; only encoding failures are.
- Backend exceptions in `remove_video`, `list_videos`, `get_collection_stats` and `clear_database` are boolean parameters. `clear_database` has two, one for `delete_collection` and one for `get_or_create_collection`.
- Store.VectorStore.ClearDatabase: when re-creating the collection raises, `self.collection` still refers to the deleted collection. The model treats the collection as empty and does not model later calls on that stale handle raising. The inner `remove_video` call of `add_transcript` is taken as never raising.
- Store.Indexed: a transcript whose text gives no chunks (a long text of whitespace only) is indexed as 0 chunks. What Chroma does with an empty `add` is not modelled.
- Store.VectorStore.ListVideos: the metadata fall-backs (`'Unknown'`, `''`, `0`) of `list_videos` are not modelled, because every stored entry carries all its keys.
- Chunking.ValidConfig: the chunker is modelled only for `0 <= overlap` and `overlap + 98 < chunk_size`. Outside that range the source's loop may never end. With the defaults (1000 and 200) the condition holds.
- gpt4all loading and generation (src/llm_interface.py:21-49, 92-100) are not modelled:
  - the model is a function from a prompt and a token budget to a response, or `None` when generation raises;
  - the sampling parameters are not modelled;
  - whether the GPU load and the CPU retry succeed is given as flags.
- Llm.FallbackText: Python's iteration order over the set of titles is not specified. The listing of the set is a function, so the exact title-list string is left open.
- Python's `lower()`, `strip()` and `isspace()` are modelled over ASCII only.
- Timestamps, durations and distances are `real`s, not IEEE floats.
- YouTube access (src/transcript_extractor.py:38-107) is not modelled:
  - `get_video_metadata` and the transcript API's language fallback are functions of the video id;
  - the text formatter's output is taken as given.
- The JSON files of the transcript cache (src/transcript_extractor.py:130-151) are a map from file name to transcript. I/O errors while saving are not modelled.
- The `VideoQASystem` constructor's GPU probes and prints (src/video_qa_system.py:19-30) and `get_stats` (157-161) are not modelled, because they report GPU memory. src/gpu_utils.py is not part of this model.
- QaSystem.Asked: the text of the exception a failing search raises is a constant of the system (`searchError`).
- `interactive_session` and `search_and_display_sources` (src/video_qa_system.py:167-238) are console presentation and are not modelled. main.py, app.py, setup.py and example.py are not part of this model.
- Console output (`print`) throughout is not modelled.
