/**
 * The orchestrator of src/video_qa_system.py: it wires the transcript
 * extractor, the vector store and the language model together. Each
 * operation here turns the collaborators' failures into values (`false`,
 * an error message), so that one bad video or question never stops the
 * system.
 */
module QaSystem {
  import opened Wrappers
  import opened Transcripts
  import opened Chunking
  import opened Extractor
  import opened Store
  import opened Llm

  /** What `ask_question` answers when the search finds nothing. */
  const NotFoundMessage :=
    "I couldn't find any relevant information in the video transcripts to answer your question. Please make sure you've added videos to the knowledge base."
  /** What `ask_question` puts before the text of an exception. */
  const ErrorLead := "I encountered an error while processing your question: "

  // ---------------------------------------------------------------------
  // Adding videos

  /**
   * `add_video(url, force_refresh)` on the transcript cache `files` and the
   * collection `es`: whether it reports success, the cache afterwards and
   * the collection afterwards. Printing the title after indexing raises
   * when the metadata has no title, so that case is a failure although the
   * chunks are stored.
   */
  function AddedVideo(files: map<string, Transcript>, fetch: string -> Option<Fetched>, metadata: string -> VideoInfo,
                      es: seq<Entry>, embed: string -> Option<Embedding>, url: string, forceRefresh: bool)
    : (bool, map<string, Transcript>, seq<Entry>)
  {
    var (t, files1) := ExtractAndSaved(files, fetch, metadata, url, forceRefresh);
    match t
    case None => (false, files1, es)
    case Some(tr) =>
      var (added, es1) := Indexed(es, tr, embed);
      (added.Some? && tr.info.title.Some?, files1, es1)
  }

  /**
   * A URL without a video id changes nothing and fails. A success means
   * the transcript was obtained and cached under its video's file, and the
   * collection then holds exactly that transcript's fresh entries for its
   * video, one per chunk, with every other video's entries as before.
   */
  lemma AddedVideoFacts(files: map<string, Transcript>, fetch: string -> Option<Fetched>, metadata: string -> VideoInfo,
                        es: seq<Entry>, embed: string -> Option<Embedding>, url: string, forceRefresh: bool)
    ensures ExtractVideoId(url).None? ==> AddedVideo(files, fetch, metadata, es, embed, url, forceRefresh) == (false, files, es)
    ensures var (ok, files', es') := AddedVideo(files, fetch, metadata, es, embed, url, forceRefresh);
      var t := ExtractAndSaved(files, fetch, metadata, url, forceRefresh).0;
      ok ==>
        && ExtractVideoId(url).Some? && t.Some?
        && FileName(ExtractVideoId(url).value) in files'
        && files'[FileName(ExtractVideoId(url).value)] == t.value
        && t.value.info.title.Some?
        && FreshEntries(t.value, embed).Some?
        && OfVideo(es', t.value.videoId) == FreshEntries(t.value, embed).value
        && CountVideo(es', t.value.videoId) == |Chunks(t.value.text, DefaultChunkSize, DefaultOverlap)|
        && WithoutVideo(es', t.value.videoId) == WithoutVideo(es, t.value.videoId)
  {
    ExtractAndSavedFacts(files, fetch, fetch, metadata, url, forceRefresh);
    var (t, files1) := ExtractAndSaved(files, fetch, metadata, url, forceRefresh);
    if t.Some? {
      IndexedReplaces(es, t.value, embed);
      FreshEntriesFacts(t.value, embed);
    }
  }

  /** Adding a video keeps the collection valid, whatever fails on the way. */
  lemma AddedVideoValid(files: map<string, Transcript>, fetch: string -> Option<Fetched>, metadata: string -> VideoInfo,
                        es: seq<Entry>, embed: string -> Option<Embedding>, url: string, forceRefresh: bool)
    requires ValidCollection(es, embed)
    ensures ValidCollection(AddedVideo(files, fetch, metadata, es, embed, url, forceRefresh).2, embed)
  {
    var t := ExtractAndSaved(files, fetch, metadata, url, forceRefresh).0;
    if t.Some? {
      IndexedValid(es, t.value, embed);
    }
  }

  /**
   * `add_videos(urls, force_refresh)`: each URL added in turn against the
   * state the previous ones left; the result of a repeated URL is that of
   * its last occurrence.
   */
  function AddedVideos(files: map<string, Transcript>, fetch: string -> Option<Fetched>, metadata: string -> VideoInfo,
                       es: seq<Entry>, embed: string -> Option<Embedding>, urls: seq<string>, forceRefresh: bool)
    : (map<string, bool>, map<string, Transcript>, seq<Entry>)
    decreases |urls|
  {
    if urls == [] then (map[], files, es)
    else
      var (results, files1, es1) := AddedVideos(files, fetch, metadata, es, embed, urls[..|urls| - 1], forceRefresh);
      var url := urls[|urls| - 1];
      var (ok, files2, es2) := AddedVideo(files1, fetch, metadata, es1, embed, url, forceRefresh);
      (results[url := ok], files2, es2)
  }

  /** One more URL records that URL's own outcome, against the state the batch left. */
  lemma AddedVideosSnoc(files: map<string, Transcript>, fetch: string -> Option<Fetched>, metadata: string -> VideoInfo,
                        es: seq<Entry>, embed: string -> Option<Embedding>, urls: seq<string>, url: string, forceRefresh: bool)
    ensures var (results, files1, es1) := AddedVideos(files, fetch, metadata, es, embed, urls, forceRefresh);
      var (ok, files2, es2) := AddedVideo(files1, fetch, metadata, es1, embed, url, forceRefresh);
      AddedVideos(files, fetch, metadata, es, embed, urls + [url], forceRefresh) == (results[url := ok], files2, es2)
  {
    assert (urls + [url])[..|urls|] == urls;
  }

  /**
   * The result has one key per distinct URL given, and a URL in which no
   * video id can be found is reported as a failure wherever it occurs.
   */
  lemma {:induction false} AddedVideosFacts(files: map<string, Transcript>, fetch: string -> Option<Fetched>,
                                            metadata: string -> VideoInfo, es: seq<Entry>, embed: string -> Option<Embedding>,
                                            urls: seq<string>, forceRefresh: bool)
    ensures AddedVideos(files, fetch, metadata, es, embed, urls, forceRefresh).0.Keys == set u | u in urls
    ensures forall u :: u in urls && ExtractVideoId(u).None? ==>
      !AddedVideos(files, fetch, metadata, es, embed, urls, forceRefresh).0[u]
    decreases |urls|
  {
    if urls != [] {
      var init, url := urls[..|urls| - 1], urls[|urls| - 1];
      assert urls == init + [url];
      AddedVideosFacts(files, fetch, metadata, es, embed, init, forceRefresh);
      AddedVideosSnoc(files, fetch, metadata, es, embed, init, url, forceRefresh);
      var (results, files1, es1) := AddedVideos(files, fetch, metadata, es, embed, init, forceRefresh);
      AddedVideoFacts(files1, fetch, metadata, es1, embed, url, forceRefresh);
    }
  }

  /** A batch of additions keeps the collection valid. */
  lemma {:induction false} AddedVideosValid(files: map<string, Transcript>, fetch: string -> Option<Fetched>,
                                            metadata: string -> VideoInfo, es: seq<Entry>, embed: string -> Option<Embedding>,
                                            urls: seq<string>, forceRefresh: bool)
    requires ValidCollection(es, embed)
    ensures ValidCollection(AddedVideos(files, fetch, metadata, es, embed, urls, forceRefresh).2, embed)
    decreases |urls|
  {
    if urls != [] {
      var init := urls[..|urls| - 1];
      AddedVideosValid(files, fetch, metadata, es, embed, init, forceRefresh);
      var (results, files1, es1) := AddedVideos(files, fetch, metadata, es, embed, init, forceRefresh);
      AddedVideoValid(files1, fetch, metadata, es1, embed, urls[|urls| - 1], forceRefresh);
    }
  }

  // ---------------------------------------------------------------------
  // Questions

  /** A search result as the language model reads it: the stored title and uploader, and the start time when known. */
  function ContextOf(r: SearchResult): ContextItem {
    ContextItem(r.document, Some(r.metadata.videoTitle), Some(r.metadata.uploader),
                match r.metadata.times case Some(tr) => Some(tr.startTime) case None => None)
  }

  /** The context handed to the model: one item per result, in rank order, with a start time exactly when the chunk has one. */
  function Contexts(rs: seq<SearchResult>): (cs: seq<ContextItem>)
    ensures |cs| == |rs|
    ensures forall i :: 0 <= i < |rs| ==>
      && cs[i].document == rs[i].document
      && (cs[i].startTime.Some? <==> rs[i].metadata.times.Some?)
  {
    seq(|rs|, i requires 0 <= i < |rs| => ContextOf(rs[i]))
  }

  /**
   * `ask_question(question, top_k)` on collection `es`, with the model of
   * kind `kind`: the error message (carrying `searchError`, the text of the
   * exception) when the search raises, a fixed message when it finds
   * nothing, and otherwise the model's answer over what it found.
   */
  function Asked(es: seq<Entry>, embed: string -> Option<Embedding>, nearest: (seq<Entry>, Embedding, nat) -> seq<Hit>,
                 kind: ModelKind, generate: (string, nat) -> Option<string>, listTitles: set<string> -> string,
                 searchError: string, question: string, topK: Option<nat>): string
  {
    match Searched(es, embed, nearest, question, topK.GetOr(TopKResults))
    case None => ErrorLead + searchError
    case Some(rs) =>
      if rs == [] then NotFoundMessage
      else Answer(kind, generate, listTitles, question, Contexts(rs), MaxTokens)
  }

  /**
   * A question always gets a non-empty reply. When the search finds
   * nothing (as it must on an empty collection) the reply is the fixed
   * message, whatever the model would have said, so the model is not
   * consulted.
   */
  lemma AskedFacts(es: seq<Entry>, embed: string -> Option<Embedding>, nearest: (seq<Entry>, Embedding, nat) -> seq<Hit>,
                   kind: ModelKind, generate: (string, nat) -> Option<string>, other: (string, nat) -> Option<string>,
                   listTitles: set<string> -> string, searchError: string, question: string, topK: Option<nat>)
    requires IsRanking(nearest)
    ensures Asked(es, embed, nearest, kind, generate, listTitles, searchError, question, topK) != []
    ensures embed(question).None? ==>
      Asked(es, embed, nearest, kind, generate, listTitles, searchError, question, topK) == ErrorLead + searchError
    ensures es == [] && embed(question).Some? ==>
      Asked(es, embed, nearest, kind, generate, listTitles, searchError, question, topK) == NotFoundMessage
    ensures Searched(es, embed, nearest, question, topK.GetOr(TopKResults)) == Some([]) ==>
      Asked(es, embed, nearest, kind, generate, listTitles, searchError, question, topK) ==
      Asked(es, embed, nearest, kind, other, listTitles, searchError, question, topK)
  {
    SearchedFacts(es, embed, nearest, question, topK.GetOr(TopKResults));
    var r := Searched(es, embed, nearest, question, topK.GetOr(TopKResults));
    if r.Some? && r.value != [] {
      AnswerNonEmpty(kind, generate, listTitles, question, Contexts(r.value), MaxTokens);
    }
  }

  class VideoQaSystem {
    const extractor: TranscriptExtractor
    const store: VectorStore
    const llm: LlmInterface
    /** The text of the exception the embedding model raises on a query it cannot encode. */
    const searchError: string

    ghost predicate Valid()
      reads this, store
    {
      store.Valid()
    }

    /** The system over its three collaborators. */
    constructor (extractor: TranscriptExtractor, store: VectorStore, llm: LlmInterface, searchError: string)
      requires store.Valid()
      ensures Valid()
      ensures this.extractor == extractor && this.store == store && this.llm == llm && this.searchError == searchError
    {
      this.extractor := extractor;
      this.store := store;
      this.llm := llm;
      this.searchError := searchError;
    }

    /** `add_video(video_url, force_refresh)` */
    method AddVideo(url: string, forceRefresh: bool) returns (ok: bool)
      requires Valid()
      modifies extractor, store
      ensures Valid()
      ensures (ok, extractor.files, store.entries) ==
        AddedVideo(old(extractor.files), extractor.fetch, extractor.metadata, old(store.entries), store.embed, url, forceRefresh)
    {
      var transcript := extractor.ExtractAndSave(url, forceRefresh);
      if transcript.None? {
        return false;
      }
      var added := store.AddTranscript(transcript.value);
      if added.None? {
        // encoding a chunk raised
        return false;
      }
      if transcript.value.info.title.None? {
        // reading the title to report it raised
        return false;
      }
      return true;
    }

    /** `add_videos(video_urls, force_refresh)` */
    method AddVideos(urls: seq<string>, forceRefresh: bool) returns (results: map<string, bool>)
      requires Valid()
      modifies extractor, store
      ensures Valid()
      ensures (results, extractor.files, store.entries) ==
        AddedVideos(old(extractor.files), extractor.fetch, extractor.metadata, old(store.entries), store.embed, urls, forceRefresh)
      ensures results.Keys == set u | u in urls
    {
      results := map[];
      for i := 0 to |urls|
        invariant Valid()
        invariant (results, extractor.files, store.entries) ==
          AddedVideos(old(extractor.files), extractor.fetch, extractor.metadata, old(store.entries), store.embed, urls[..i], forceRefresh)
      {
        assert urls[..i + 1] == urls[..i] + [urls[i]];
        AddedVideosSnoc(old(extractor.files), extractor.fetch, extractor.metadata, old(store.entries), store.embed,
                        urls[..i], urls[i], forceRefresh);
        var ok := AddVideo(urls[i], forceRefresh);
        results := results[urls[i] := ok];
      }
      assert urls[..|urls|] == urls;
      AddedVideosFacts(old(extractor.files), extractor.fetch, extractor.metadata, old(store.entries), store.embed, urls, forceRefresh);
    }

    /** `ask_question(question, top_k)`: `top_k` defaults to `TOP_K_RESULTS`. */
    method AskQuestion(question: string, topK: Option<nat>) returns (answer: string)
      requires Valid()
      ensures answer == Asked(store.entries, store.embed, store.nearest, llm.modelType, llm.generate, llm.listTitles,
                              searchError, question, topK)
      ensures answer != []
    {
      AskedFacts(store.entries, store.embed, store.nearest, llm.modelType, llm.generate, llm.generate, llm.listTitles,
                 searchError, question, topK);
      var context := store.Search(question, Some(topK.GetOr(TopKResults)));
      if context.None? {
        return ErrorLead + searchError;
      }
      if context.value == [] {
        return NotFoundMessage;
      }
      answer := llm.GenerateAnswer(question, Contexts(context.value), None);
    }

    /** `get_relevant_sources(question, top_k)`: the search itself, with the same default. */
    method GetRelevantSources(question: string, topK: Option<nat>) returns (sources: Option<seq<SearchResult>>)
      requires Valid()
      ensures sources == Searched(store.entries, store.embed, store.nearest, question, topK.GetOr(TopKResults))
      ensures sources.Some? ==> RankedResults(sources.value, store.entries, topK.GetOr(TopKResults))
    {
      sources := store.Search(question, Some(topK.GetOr(TopKResults)));
    }

    /** `list_videos()` */
    method ListVideos(backendRaises: bool) returns (videos: seq<VideoRecord>)
      ensures videos == if backendRaises then [] else Catalogue(store.entries)
      ensures !backendRaises ==> TotalChunks(videos) == |store.entries|
    {
      videos := store.ListVideos(backendRaises);
    }

    /** `remove_video(video_id)`: whether any chunk was removed. */
    method RemoveVideo(videoId: string, backendRaises: bool) returns (ok: bool)
      requires Valid()
      modifies store
      ensures Valid()
      ensures ok <==> !backendRaises && CountVideo(old(store.entries), videoId) > 0
      ensures store.entries == if backendRaises then old(store.entries) else WithoutVideo(old(store.entries), videoId)
    {
      var removed := store.RemoveVideo(videoId, backendRaises);
      ok := removed > 0;
    }

    /** `clear_knowledge_base()` */
    method ClearKnowledgeBase(deleteRaises: bool, recreateRaises: bool) returns (ok: bool)
      requires Valid()
      modifies store
      ensures Valid()
      ensures ok == (!deleteRaises && !recreateRaises)
      ensures store.entries == if deleteRaises then old(store.entries) else []
    {
      ok := store.ClearDatabase(deleteRaises, recreateRaises);
    }
  }
}
