/**
 * The vector store of src/vector_store.py: transcripts are cut into chunks,
 * each chunk is tagged with the caption segments it quotes, embedded and
 * stored under the id `<video_id>_<chunk_index>` in one collection.
 *
 * The collection is an insertion-ordered sequence of entries. The sentence
 * embedding model is a function from a document to its vector (or `None`
 * when encoding raises), and the collection's nearest-neighbour query is a
 * function whose ranking contract is required of it.
 */
module Store {
  import opened Wrappers
  import opened Text
  import opened Chunking
  import opened Transcripts

  /** `COLLECTION_NAME`, `EMBEDDING_MODEL` and `TOP_K_RESULTS` of config/config.py. */
  const CollectionName: string := "video_transcripts"
  const EmbeddingModel: string := "all-MiniLM-L6-v2"
  const TopKResults: nat := 5

  type Embedding = seq<real>

  /** `start_time` and `end_time`, present only when some segment matched the chunk. */
  datatype TimeRange = TimeRange(startTime: real, endTime: real)

  /** The metadata dictionary stored with each chunk. */
  datatype ChunkMetadata = ChunkMetadata(
    videoId: string,
    chunkIndex: nat,
    videoTitle: string,
    uploader: string,
    uploadDate: string,
    videoUrl: string,
    duration: int,
    segmentsCount: nat,
    textLength: nat,
    times: Option<TimeRange>)

  /** One record of the collection. */
  datatype Entry = Entry(id: string, document: string, metadata: ChunkMetadata, embedding: Embedding)

  /** One row of a nearest-neighbour query, before formatting. */
  datatype Hit = Hit(document: string, metadata: ChunkMetadata, distance: real)

  /** One formatted search result. */
  datatype SearchResult = SearchResult(document: string, metadata: ChunkMetadata, distance: real, similarity: real)

  /** One element of `list_videos()`. */
  datatype VideoRecord = VideoRecord(
    videoId: string,
    title: string,
    uploader: string,
    uploadDate: string,
    url: string,
    duration: int,
    chunks: nat)

  /** The dictionary of `get_collection_stats()`. */
  datatype Stats = Stats(totalChunks: nat, totalVideos: nat, collectionName: string, embeddingModel: string)

  // ---------------------------------------------------------------------
  // Segments of a chunk

  /** The segment's text, lower-cased, occurs in the lower-cased chunk. */
  predicate Mentions(chunk: string, seg: Segment) {
    IsSubstring(Lower(seg.text), Lower(chunk))
  }

  /** The segments that `_find_segments_for_chunk` keeps, in their original order. */
  function MatchingSegments(chunk: string, segs: seq<Segment>): seq<Segment>
    decreases |segs|
  {
    if segs == [] then []
    else
      var last := segs[|segs| - 1];
      MatchingSegments(chunk, segs[..|segs| - 1]) + (if Mentions(chunk, last) then [last] else [])
  }

  /** The kept segments are exactly the segments the chunk mentions, in the order they come. */
  lemma {:induction false} MatchingSegmentsFacts(chunk: string, segs: seq<Segment>)
    ensures |MatchingSegments(chunk, segs)| <= |segs|
    ensures forall s :: s in MatchingSegments(chunk, segs) <==> s in segs && Mentions(chunk, s)
    ensures IsSubsequence(MatchingSegments(chunk, segs), segs)
    ensures forall s ::
              multiset(MatchingSegments(chunk, segs))[s] == if Mentions(chunk, s) then multiset(segs)[s] else 0
    decreases |segs|
  {
    if segs != [] {
      var init, last := segs[..|segs| - 1], segs[|segs| - 1];
      assert segs == init + [last];
      assert multiset(segs) == multiset(init) + multiset{last};
      MatchingSegmentsFacts(chunk, init);
      var r := MatchingSegments(chunk, init);
      if Mentions(chunk, last) {
        assert MatchingSegments(chunk, segs) == r + [last];
        assert multiset(r + [last]) == multiset(r) + multiset{last};
        assert (r + [last])[..|r|] == r;
      } else {
        assert MatchingSegments(chunk, segs) == r;
        if r != [] {
          assert r[|r| - 1] in r;
          assert r[|r| - 1] != last;
        }
      }
    }
  }

  /** `min(seg['start'] for seg in segs)` */
  function EarliestStart(segs: seq<Segment>): (m: real)
    requires segs != []
    ensures forall s :: s in segs ==> m <= s.start
    ensures exists s :: s in segs && s.start == m
    decreases |segs|
  {
    if |segs| == 1 then segs[0].start
    else
      var m := EarliestStart(segs[1..]);
      assert forall s :: s in segs[1..] ==> s in segs;
      assert forall s :: s in segs ==> s == segs[0] || s in segs[1..];
      if segs[0].start < m then segs[0].start else m
  }

  /** `max(seg['start'] + seg['duration'] for seg in segs)` */
  function LatestEnd(segs: seq<Segment>): (m: real)
    requires segs != []
    ensures forall s :: s in segs ==> s.start + s.duration <= m
    ensures exists s :: s in segs && s.start + s.duration == m
    decreases |segs|
  {
    if |segs| == 1 then segs[0].start + segs[0].duration
    else
      var m := LatestEnd(segs[1..]);
      assert forall s :: s in segs[1..] ==> s in segs;
      assert forall s :: s in segs ==> s == segs[0] || s in segs[1..];
      if m < segs[0].start + segs[0].duration then segs[0].start + segs[0].duration else m
  }

  /**
   * The metadata of chunk `i` of transcript `t`, given the segments found
   * for it: video fields fall back to "Unknown", "" and 0, and the time
   * range is present only when a segment was found.
   */
  function MetadataFor(t: Transcript, i: nat, chunk: string, found: seq<Segment>): ChunkMetadata {
    ChunkMetadata(
      t.videoId, i,
      t.info.title.GetOr("Unknown"),
      t.info.uploader.GetOr("Unknown"),
      t.info.uploadDate.GetOr("Unknown"),
      t.info.url.GetOr(""),
      t.info.duration.GetOr(0),
      |found|, |chunk|,
      if found == [] then None else Some(TimeRange(EarliestStart(found), LatestEnd(found))))
  }

  /**
   * A chunk carries a time range exactly when one of the transcript's
   * segments is quoted in it, and the range spans all quoted segments: it
   * starts at the earliest such start and ends at the latest such end.
   */
  lemma MetadataTimes(t: Transcript, i: nat, chunk: string)
    ensures var md := MetadataFor(t, i, chunk, MatchingSegments(chunk, t.segments));
      && (md.times.Some? <==> exists s :: s in t.segments && Mentions(chunk, s))
      && md.segmentsCount == |MatchingSegments(chunk, t.segments)| <= |t.segments|
      && md.textLength == |chunk|
    ensures var md := MetadataFor(t, i, chunk, MatchingSegments(chunk, t.segments));
      md.times.Some? ==>
        && (forall s :: s in t.segments && Mentions(chunk, s) ==>
              md.times.value.startTime <= s.start && s.start + s.duration <= md.times.value.endTime)
        && (exists s :: s in t.segments && Mentions(chunk, s) && s.start == md.times.value.startTime)
        && (exists s :: s in t.segments && Mentions(chunk, s) && s.start + s.duration == md.times.value.endTime)
  {
    MatchingSegmentsFacts(chunk, t.segments);
    var found := MatchingSegments(chunk, t.segments);
    if found != [] {
      var s0 := found[0];
      assert s0 in found;
    }
  }

  // ---------------------------------------------------------------------
  // Chunk ids

  /** `f"{video_id}_{i}"` */
  function ComposeId(videoId: string, i: nat): string {
    videoId + "_" + NatToString(i)
  }

  /** Different (video, chunk index) pairs never share an id: the index is all digits, so the last "_" separates the two. */
  lemma ComposeIdInjective(v: string, i: nat, w: string, j: nat)
    requires ComposeId(v, i) == ComposeId(w, j)
    ensures v == w && i == j
  {
    var s := ComposeId(v, i);
    var d1, d2 := NatToString(i), NatToString(j);
    assert s == v + "_" + d1 == w + "_" + d2;
    assert s[|s| - |d1| - 1] == '_' && s[|s| - |d2| - 1] == '_';
    assert '_' !in d1 && '_' !in d2;
    assert |d1| == |d2|;
    assert d1 == s[|s| - |d1|..] == d2;
    NatToStringInjective(i, j);
    assert v == s[..|v|] == w;
  }

  // ---------------------------------------------------------------------
  // The collection and its invariant

  /** No two entries share an id. */
  predicate DistinctIds(es: seq<Entry>) {
    forall i, j :: 0 <= i < j < |es| ==> es[i].id != es[j].id
  }

  /**
   * What the store keeps true of its collection: ids are unique, each id is
   * composed from the entry's video id and chunk index, and each embedding
   * is the model's encoding of the entry's document.
   */
  predicate ValidCollection(es: seq<Entry>, embed: string -> Option<Embedding>) {
    && DistinctIds(es)
    && forall e :: e in es ==>
         && e.id == ComposeId(e.metadata.videoId, e.metadata.chunkIndex)
         && embed(e.document) == Some(e.embedding)
  }

  /** The entries of video `v`, in collection order: `collection.get(where={"video_id": v})`. */
  function OfVideo(es: seq<Entry>, v: string): seq<Entry>
    decreases |es|
  {
    if es == [] then []
    else
      var last := es[|es| - 1];
      OfVideo(es[..|es| - 1], v) + (if last.metadata.videoId == v then [last] else [])
  }

  /** The entries of every other video, in collection order. */
  function WithoutVideo(es: seq<Entry>, v: string): seq<Entry>
    decreases |es|
  {
    if es == [] then []
    else
      var last := es[|es| - 1];
      WithoutVideo(es[..|es| - 1], v) + (if last.metadata.videoId != v then [last] else [])
  }

  /** The entries whose id is not in `ids`: `collection.delete(ids=ids)`. */
  function DropIds(es: seq<Entry>, ids: set<string>): seq<Entry>
    decreases |es|
  {
    if es == [] then []
    else
      var last := es[|es| - 1];
      DropIds(es[..|es| - 1], ids) + (if last.id !in ids then [last] else [])
  }

  function IdSet(es: seq<Entry>): set<string> {
    set e | e in es :: e.id
  }

  /** Removing a video splits the collection in two: its own entries and the others. */
  lemma {:induction false} SplitByVideoCount(es: seq<Entry>, v: string)
    ensures |OfVideo(es, v)| + |WithoutVideo(es, v)| == |es|
    decreases |es|
  {
    if es != [] {
      SplitByVideoCount(es[..|es| - 1], v);
    }
  }

  /** The video's own entries are the entries of that video, and nothing else. */
  lemma {:induction false} OfVideoMembers(es: seq<Entry>, v: string)
    ensures forall e :: e in OfVideo(es, v) <==> e in es && e.metadata.videoId == v
    decreases |es|
  {
    if es != [] {
      var init, last := es[..|es| - 1], es[|es| - 1];
      assert es == init + [last];
      OfVideoMembers(init, v);
    }
  }

  /** The other videos' entries are those of any other video, and nothing else. */
  lemma {:induction false} WithoutVideoMembers(es: seq<Entry>, v: string)
    ensures forall e :: e in WithoutVideo(es, v) <==> e in es && e.metadata.videoId != v
    decreases |es|
  {
    if es != [] {
      var init, last := es[..|es| - 1], es[|es| - 1];
      assert es == init + [last];
      WithoutVideoMembers(init, v);
    }
  }

  /** The other videos' entries keep their order. */
  lemma {:induction false} WithoutVideoInOrder(es: seq<Entry>, v: string)
    ensures IsSubsequence(WithoutVideo(es, v), es)
    decreases |es|
  {
    if es != [] {
      var init, last := es[..|es| - 1], es[|es| - 1];
      WithoutVideoInOrder(init, v);
      var r := WithoutVideo(init, v);
      if last.metadata.videoId != v {
        assert WithoutVideo(es, v) == r + [last];
        assert (r + [last])[..|r|] == r;
      } else {
        assert WithoutVideo(es, v) == r;
        if r != [] {
          WithoutVideoMembers(init, v);
          assert r[|r| - 1] in r;
        }
      }
    }
  }

  /** Filtering distributes over concatenation. */
  lemma {:induction false} FiltersAppend(a: seq<Entry>, b: seq<Entry>, v: string)
    ensures WithoutVideo(a + b, v) == WithoutVideo(a, v) + WithoutVideo(b, v)
    ensures OfVideo(a + b, v) == OfVideo(a, v) + OfVideo(b, v)
    decreases |b|
  {
    if b == [] {
      assert a + b == a;
    } else {
      var init, last := b[..|b| - 1], b[|b| - 1];
      assert (a + b)[..|a + b| - 1] == a + init;
      assert (a + b)[|a + b| - 1] == last;
      FiltersAppend(a, init, v);
      var tailW := if last.metadata.videoId != v then [last] else [];
      var tailO := if last.metadata.videoId == v then [last] else [];
      assert WithoutVideo(b, v) == WithoutVideo(init, v) + tailW;
      assert OfVideo(b, v) == OfVideo(init, v) + tailO;
      calc {
        WithoutVideo(a + b, v);
        WithoutVideo(a + init, v) + tailW;
        WithoutVideo(a, v) + WithoutVideo(init, v) + tailW;
        WithoutVideo(a, v) + (WithoutVideo(init, v) + tailW);
      }
      calc {
        OfVideo(a + b, v);
        OfVideo(a + init, v) + tailO;
        OfVideo(a, v) + OfVideo(init, v) + tailO;
        OfVideo(a, v) + (OfVideo(init, v) + tailO);
      }
    }
  }

  /** A filter that keeps every entry, or none, is the identity, or empty. */
  lemma {:induction false} FiltersOfOneVideo(ns: seq<Entry>, v: string)
    requires forall e :: e in ns ==> e.metadata.videoId == v
    ensures WithoutVideo(ns, v) == [] && OfVideo(ns, v) == ns
    decreases |ns|
  {
    if ns != [] {
      assert ns == ns[..|ns| - 1] + [ns[|ns| - 1]];
      FiltersOfOneVideo(ns[..|ns| - 1], v);
    }
  }

  /** Removing a video twice is removing it once. */
  lemma {:induction false} WithoutVideoTwice(es: seq<Entry>, v: string)
    ensures WithoutVideo(WithoutVideo(es, v), v) == WithoutVideo(es, v)
    ensures OfVideo(WithoutVideo(es, v), v) == []
    decreases |es|
  {
    if es != [] {
      var init, last := es[..|es| - 1], es[|es| - 1];
      WithoutVideoTwice(init, v);
      var r := WithoutVideo(init, v);
      if last.metadata.videoId != v {
        assert WithoutVideo(es, v) == r + [last];
        assert (r + [last])[..|r|] == r;
        assert WithoutVideo(r + [last], v) == WithoutVideo(r, v) + [last];
        assert OfVideo(r + [last], v) == OfVideo(r, v);
      } else {
        assert WithoutVideo(es, v) == r;
      }
    }
  }

  /** Deleting by a set of ids that picks out exactly video `v`'s entries deletes video `v`. */
  lemma {:induction false} DropIdsOfVideo(es: seq<Entry>, ids: set<string>, v: string)
    requires forall e :: e in es ==> (e.id in ids <==> e.metadata.videoId == v)
    ensures DropIds(es, ids) == WithoutVideo(es, v)
    decreases |es|
  {
    if es != [] {
      var init := es[..|es| - 1];
      assert forall e :: e in init ==> e in es;
      DropIdsOfVideo(init, ids, v);
    }
  }

  /**
   * In a valid collection the ids of video `v`'s entries belong to no other
   * video, so `remove_video`'s delete-by-ids removes exactly that video.
   */
  lemma RemoveByIds(es: seq<Entry>, embed: string -> Option<Embedding>, v: string)
    requires ValidCollection(es, embed)
    ensures DropIds(es, IdSet(OfVideo(es, v))) == WithoutVideo(es, v)
  {
    OfVideoMembers(es, v);
    var ids := IdSet(OfVideo(es, v));
    forall e | e in es
      ensures e.id in ids <==> e.metadata.videoId == v
    {
      if e.id in ids {
        var e' :| e' in OfVideo(es, v) && e'.id == e.id;
        ComposeIdInjective(e.metadata.videoId, e.metadata.chunkIndex, e'.metadata.videoId, e'.metadata.chunkIndex);
      }
    }
    DropIdsOfVideo(es, ids, v);
  }

  /** A kept-in-order part of a collection with unique ids has unique ids. */
  lemma {:induction false} DistinctSubsequence(a: seq<Entry>, b: seq<Entry>)
    requires IsSubsequence(a, b) && DistinctIds(b)
    ensures DistinctIds(a) && forall e :: e in a ==> e in b
    decreases |b|
  {
    if a != [] {
      var a', b' := a[..|a| - 1], b[..|b| - 1];
      assert DistinctIds(b');
      if a[|a| - 1] == b[|b| - 1] {
        DistinctSubsequence(a', b');
        assert a == a' + [a[|a| - 1]];
        forall i | 0 <= i < |a'|
          ensures a'[i].id != b[|b| - 1].id
        {
          assert a'[i] in b';
          var k :| 0 <= k < |b'| && b'[k] == a'[i];
        }
      } else {
        DistinctSubsequence(a, b');
      }
    }
  }

  /** Removing a video keeps a collection valid. */
  lemma WithoutVideoValid(es: seq<Entry>, embed: string -> Option<Embedding>, v: string)
    requires ValidCollection(es, embed)
    ensures ValidCollection(WithoutVideo(es, v), embed)
  {
    WithoutVideoInOrder(es, v);
    DistinctSubsequence(WithoutVideo(es, v), es);
  }

  // ---------------------------------------------------------------------
  // Embedding and indexing

  /** `embedding_model.encode(docs)`: one vector per document, or `None` when any document fails. */
  function EncodeAll(embed: string -> Option<Embedding>, docs: seq<string>): (r: Option<seq<Embedding>>)
    ensures r.Some? ==> |r.value| == |docs| && forall i :: 0 <= i < |docs| ==> embed(docs[i]) == Some(r.value[i])
    ensures r.None? ==> exists i :: 0 <= i < |docs| && embed(docs[i]).None?
    decreases |docs|
  {
    if docs == [] then Some([])
    else
      match embed(docs[0])
      case None => None
      case Some(x) =>
        match EncodeAll(embed, docs[1..])
        case None => None
        case Some(xs) => Some([x] + xs)
  }

  /** The entries `add_transcript` builds for the chunks of `t`, given their vectors. */
  function NewEntries(t: Transcript, chunks: seq<string>, vectors: seq<Embedding>): seq<Entry>
    requires |vectors| == |chunks|
  {
    seq(|chunks|, k requires 0 <= k < |chunks| =>
      Entry(ComposeId(t.videoId, k), chunks[k], MetadataFor(t, k, chunks[k], MatchingSegments(chunks[k], t.segments)), vectors[k]))
  }

  /** The entries for transcript `t`, or `None` when encoding raises. */
  function FreshEntries(t: Transcript, embed: string -> Option<Embedding>): Option<seq<Entry>> {
    var chunks := Chunks(t.text, DefaultChunkSize, DefaultOverlap);
    match EncodeAll(embed, chunks)
    case None => None
    case Some(vectors) => Some(NewEntries(t, chunks, vectors))
  }

  /**
   * `add_transcript(t)` on collection `es`: the number of chunks added (or
   * `None` when it raises) and the new collection. The old entries of the
   * video are removed first, even when encoding then raises.
   */
  function Indexed(es: seq<Entry>, t: Transcript, embed: string -> Option<Embedding>): (Option<nat>, seq<Entry>) {
    var kept := WithoutVideo(es, t.videoId);
    match FreshEntries(t, embed)
    case None => (None, kept)
    case Some(ns) => (Some(|ns|), kept + ns)
  }

  /**
   * The entries of a transcript: one per chunk of its text in chunk order,
   * each id composed from the video id and the chunk's index, each document
   * the chunk itself, each embedding the chunk's encoding. There are none
   * exactly when some chunk cannot be encoded.
   */
  lemma FreshEntriesFacts(t: Transcript, embed: string -> Option<Embedding>)
    ensures FreshEntries(t, embed).None? <==>
      exists c :: c in Chunks(t.text, DefaultChunkSize, DefaultOverlap) && embed(c).None?
    ensures FreshEntries(t, embed).Some? ==>
      var chunks := Chunks(t.text, DefaultChunkSize, DefaultOverlap);
      var ns := FreshEntries(t, embed).value;
      && |ns| == |chunks|
      && forall k :: 0 <= k < |ns| ==>
           && ns[k].id == ComposeId(t.videoId, k)
           && ns[k].document == chunks[k]
           && ns[k].metadata.videoId == t.videoId
           && ns[k].metadata.chunkIndex == k
           && ns[k].metadata.textLength == |chunks[k]|
           && ns[k].metadata == MetadataFor(t, k, chunks[k], MatchingSegments(chunks[k], t.segments))
           && embed(ns[k].document) == Some(ns[k].embedding)
  {
    var chunks := Chunks(t.text, DefaultChunkSize, DefaultOverlap);
    var r := EncodeAll(embed, chunks);
    if r.None? {
      var i :| 0 <= i < |chunks| && embed(chunks[i]).None?;
      assert chunks[i] in chunks;
    } else {
      forall c | c in chunks ensures embed(c).Some? {
        var i :| 0 <= i < |chunks| && chunks[i] == c;
      }
    }
  }

  /** Fresh entries all belong to the transcript's video and have distinct ids. */
  lemma FreshEntriesDistinct(t: Transcript, embed: string -> Option<Embedding>)
    requires FreshEntries(t, embed).Some?
    ensures forall e :: e in FreshEntries(t, embed).value ==>
      e.metadata.videoId == t.videoId && e.id == ComposeId(e.metadata.videoId, e.metadata.chunkIndex)
    ensures DistinctIds(FreshEntries(t, embed).value)
  {
    FreshEntriesFacts(t, embed);
    var ns := FreshEntries(t, embed).value;
    forall i, j | 0 <= i < j < |ns|
      ensures ns[i].id != ns[j].id
    {
      if ns[i].id == ns[j].id {
        ComposeIdInjective(t.videoId, i, t.videoId, j);
      }
    }
  }

  /**
   * After `add_transcript(t)` the other videos' entries are exactly as
   * before, and the video's own entries are exactly the fresh ones (none
   * when encoding raised): re-adding a video replaces it.
   */
  lemma IndexedReplaces(es: seq<Entry>, t: Transcript, embed: string -> Option<Embedding>)
    ensures WithoutVideo(Indexed(es, t, embed).1, t.videoId) == WithoutVideo(es, t.videoId)
    ensures OfVideo(Indexed(es, t, embed).1, t.videoId) ==
      match FreshEntries(t, embed) case None => [] case Some(ns) => ns
    ensures Indexed(es, t, embed).0.Some? <==> FreshEntries(t, embed).Some?
    ensures Indexed(es, t, embed).0.Some? ==> Indexed(es, t, embed).0.value == |Chunks(t.text, DefaultChunkSize, DefaultOverlap)|
  {
    var v := t.videoId;
    var kept := WithoutVideo(es, v);
    WithoutVideoTwice(es, v);
    FreshEntriesFacts(t, embed);
    match FreshEntries(t, embed)
    case None =>
    case Some(ns) =>
      FreshEntriesDistinct(t, embed);
      FiltersAppend(kept, ns, v);
      FiltersOfOneVideo(ns, v);
      assert kept + [] == kept;
      assert [] + ns == ns;
  }

  /** Adding a transcript twice leaves the collection as adding it (or its newer version) once. */
  lemma ReindexIsIdempotent(es: seq<Entry>, t: Transcript, t': Transcript, embed: string -> Option<Embedding>)
    requires t'.videoId == t.videoId
    ensures Indexed(Indexed(es, t, embed).1, t', embed) == Indexed(es, t', embed)
  {
    IndexedReplaces(es, t, embed);
  }

  /** Appending entries of one video to a valid collection without that video keeps it valid. */
  lemma AppendVideoValid(kept: seq<Entry>, ns: seq<Entry>, embed: string -> Option<Embedding>, v: string)
    requires ValidCollection(kept, embed) && DistinctIds(ns)
    requires forall e :: e in kept ==> e.metadata.videoId != v
    requires forall e :: e in ns ==>
      && e.metadata.videoId == v
      && e.id == ComposeId(e.metadata.videoId, e.metadata.chunkIndex)
      && embed(e.document) == Some(e.embedding)
    ensures ValidCollection(kept + ns, embed)
  {
    var all := kept + ns;
    forall i, j | 0 <= i < j < |all|
      ensures all[i].id != all[j].id
    {
      if i < |kept| <= j {
        var a, b := all[i], all[j];
        assert a in kept && b == ns[j - |kept|] && b in ns;
        if a.id == b.id {
          ComposeIdInjective(a.metadata.videoId, a.metadata.chunkIndex, b.metadata.videoId, b.metadata.chunkIndex);
        }
      } else if |kept| <= i {
        assert all[i] == ns[i - |kept|] && all[j] == ns[j - |kept|];
      }
    }
  }

  /** `add_transcript` keeps the collection valid, whatever happens. */
  lemma IndexedValid(es: seq<Entry>, t: Transcript, embed: string -> Option<Embedding>)
    requires ValidCollection(es, embed)
    ensures ValidCollection(Indexed(es, t, embed).1, embed)
  {
    var v := t.videoId;
    WithoutVideoValid(es, embed, v);
    WithoutVideoMembers(es, v);
    match FreshEntries(t, embed)
    case None =>
    case Some(ns) =>
      FreshEntriesFacts(t, embed);
      FreshEntriesDistinct(t, embed);
      forall e | e in ns
        ensures embed(e.document) == Some(e.embedding)
      {
        var k :| 0 <= k < |ns| && ns[k] == e;
      }
      AppendVideoValid(WithoutVideo(es, v), ns, embed, v);
  }

  /** `Indexed` in the steps `add_transcript` takes: remove, chunk, encode, append. */
  lemma IndexedUnfold(es: seq<Entry>, t: Transcript, embed: string -> Option<Embedding>,
                      kept: seq<Entry>, chunks: seq<string>, vectors: Option<seq<Embedding>>)
    requires kept == WithoutVideo(es, t.videoId)
    requires chunks == Chunks(t.text, DefaultChunkSize, DefaultOverlap)
    requires vectors == EncodeAll(embed, chunks)
    ensures vectors.None? ==> Indexed(es, t, embed) == (None, kept)
    ensures vectors.Some? ==>
      && |vectors.value| == |chunks|
      && Indexed(es, t, embed) == (Some(|chunks|), kept + NewEntries(t, chunks, vectors.value))
  {
  }

  /** The rows `add_transcript` assembles from its id, document and metadata lists are the new entries. */
  lemma RowsAreNewEntries(t: Transcript, chunks: seq<string>, vectors: seq<Embedding>,
                          ids: seq<string>, metadatas: seq<ChunkMetadata>, rows: seq<Entry>)
    requires |vectors| == |chunks| == |ids| == |metadatas| == |rows|
    requires forall k :: 0 <= k < |chunks| ==>
      && ids[k] == ComposeId(t.videoId, k)
      && metadatas[k] == MetadataFor(t, k, chunks[k], MatchingSegments(chunks[k], t.segments))
    requires forall k :: 0 <= k < |rows| ==> rows[k] == Entry(ids[k], chunks[k], metadatas[k], vectors[k])
    ensures rows == NewEntries(t, chunks, vectors)
  {
  }

  // ---------------------------------------------------------------------
  // Listing videos

  /** The number of entries of video `v`. */
  function CountVideo(es: seq<Entry>, v: string): nat {
    |OfVideo(es, v)|
  }

  /** The video ids of the collection, each once, in the order of their first entry. */
  function VideoOrder(es: seq<Entry>): seq<string>
    decreases |es|
  {
    if es == [] then [] else AddToOrder(VideoOrder(es[..|es| - 1]), es[|es| - 1].metadata.videoId)
  }

  /** A video is listed once, when first seen. */
  function AddToOrder(order: seq<string>, v: string): seq<string> {
    if v in order then order else order + [v]
  }

  /** The record `list_videos` starts for a video, from the metadata of its first entry. */
  function RecordOf(md: ChunkMetadata, chunks: nat): VideoRecord {
    VideoRecord(md.videoId, md.videoTitle, md.uploader, md.uploadDate, md.videoUrl, md.duration, chunks)
  }

  /** The `videos` dictionary after the loop of `list_videos` has seen the entries `es`. */
  function Tally(es: seq<Entry>): map<string, VideoRecord>
    decreases |es|
  {
    if es == [] then map[] else CountEntry(Tally(es[..|es| - 1]), es[|es| - 1].metadata)
  }

  /** One loop turn of `list_videos`: start the video's record if it is new, then count the chunk. */
  function CountEntry(m: map<string, VideoRecord>, md: ChunkMetadata): map<string, VideoRecord> {
    var m1 := if md.videoId in m then m else m[md.videoId := RecordOf(md, 0)];
    m1[md.videoId := m1[md.videoId].(chunks := m1[md.videoId].chunks + 1)]
  }

  /** The records of `m` for the keys `order`, in that order: `list(videos.values())`. */
  function Listing(order: seq<string>, m: map<string, VideoRecord>): seq<VideoRecord>
    decreases |order|
  {
    if order == [] then []
    else
      var v := order[|order| - 1];
      Listing(order[..|order| - 1], m) + if v in m then [m[v]] else []
  }

  predicate Distinct<T(==)>(xs: seq<T>) {
    forall i, j :: 0 <= i < j < |xs| ==> xs[i] != xs[j]
  }

  /**
   * The video order lists every video of the collection once and nothing
   * else, and the tally has a record for exactly those videos.
   */
  lemma {:induction false} VideoOrderFacts(es: seq<Entry>)
    ensures Distinct(VideoOrder(es))
    ensures forall v :: v in VideoOrder(es) <==> exists e :: e in es && e.metadata.videoId == v
    ensures forall v :: v in Tally(es) <==> v in VideoOrder(es)
    ensures |VideoOrder(es)| <= |es|
    decreases |es|
  {
    if es != [] {
      var init, last := es[..|es| - 1], es[|es| - 1];
      assert es == init + [last];
      VideoOrderFacts(init);
      var order := VideoOrder(init);
      var v := last.metadata.videoId;
      if v !in order {
        assert (order + [v])[|order|] == v;
      }
    }
  }

  /** One more entry: its video's record is started (with one chunk) or counts one more chunk. */
  lemma TallyStep(es: seq<Entry>)
    requires es != []
    ensures var m, md := Tally(es[..|es| - 1]), es[|es| - 1].metadata;
      Tally(es) == if md.videoId in m then m[md.videoId := m[md.videoId].(chunks := m[md.videoId].chunks + 1)]
                   else m[md.videoId := RecordOf(md, 1)]
  {
    CountEntryFacts(Tally(es[..|es| - 1]), es[|es| - 1].metadata);
  }

  lemma CountEntryFacts(m: map<string, VideoRecord>, md: ChunkMetadata)
    ensures CountEntry(m, md) == if md.videoId in m then m[md.videoId := m[md.videoId].(chunks := m[md.videoId].chunks + 1)]
                                 else m[md.videoId := RecordOf(md, 1)]
  {
    if md.videoId !in m {
      var m1 := m[md.videoId := RecordOf(md, 0)];
      assert m1[md.videoId].(chunks := m1[md.videoId].chunks + 1) == RecordOf(md, 1);
    }
  }

  /** One more entry adds one to the count of its own video only. */
  lemma CountStep(es: seq<Entry>, v: string)
    requires es != []
    ensures CountVideo(es, v) == CountVideo(es[..|es| - 1], v) + if es[|es| - 1].metadata.videoId == v then 1 else 0
  {
  }

  /** A video with no entry has count zero. */
  lemma {:induction false} CountAbsent(es: seq<Entry>, v: string)
    requires forall e :: e in es ==> e.metadata.videoId != v
    ensures CountVideo(es, v) == 0
    decreases |es|
  {
    if es != [] {
      var init := es[..|es| - 1];
      assert es[|es| - 1] in es && forall e :: e in init ==> e in es;
      CountAbsent(init, v);
    }
  }

  /** The record of video `v` counts its entries. */
  lemma {:induction false} TallyCount(es: seq<Entry>, v: string)
    requires v in Tally(es)
    ensures Tally(es)[v].chunks == CountVideo(es, v)
    decreases |es|
  {
    var init := es[..|es| - 1];
    TallyStep(es);
    CountStep(es, v);
    VideoOrderFacts(init);
    if v in Tally(init) {
      TallyCount(init, v);
    } else {
      CountAbsent(init, v);
    }
  }

  /** The record of video `v` takes its fields from the metadata of the video's first entry. */
  lemma {:induction false} TallyFirst(es: seq<Entry>, v: string)
    requires v in Tally(es)
    ensures exists k :: FirstOfVideo(es, v, k) && Tally(es)[v] == RecordOf(es[k].metadata, Tally(es)[v].chunks)
    decreases |es|
  {
    var init, last := es[..|es| - 1], es[|es| - 1];
    TallyStep(es);
    if v in Tally(init) {
      TallyFirst(init, v);
      var k :| FirstOfVideo(init, v, k) && Tally(init)[v] == RecordOf(init[k].metadata, Tally(init)[v].chunks);
      assert forall j :: 0 <= j <= k ==> es[j] == init[j];
      assert FirstOfVideo(es, v, k);
    } else {
      TallyHas(init);
      assert forall j :: 0 <= j < |init| ==> es[j] == init[j];
      assert FirstOfVideo(es, v, |init|);
    }
  }

  /** Every entry's video has a record in the tally. */
  lemma {:induction false} TallyHas(es: seq<Entry>)
    ensures forall j :: 0 <= j < |es| ==> es[j].metadata.videoId in Tally(es)
    decreases |es|
  {
    if es != [] {
      var init := es[..|es| - 1];
      TallyHas(init);
      TallyStep(es);
      assert forall j :: 0 <= j < |init| ==> es[j] == init[j];
    }
  }

  /** `es[k]` is the first entry of video `v`. */
  predicate FirstOfVideo(es: seq<Entry>, v: string, k: int) {
    && 0 <= k < |es| && es[k].metadata.videoId == v
    && forall j :: 0 <= j < k ==> es[j].metadata.videoId != v
  }

  /** The chunk counts of a listing. */
  function TotalChunks(rs: seq<VideoRecord>): nat
    decreases |rs|
  {
    if rs == [] then 0 else TotalChunks(rs[..|rs| - 1]) + rs[|rs| - 1].chunks
  }

  /** Changing the record of a key outside the order leaves the listing alone. */
  lemma {:induction false} ListingOutside(order: seq<string>, m: map<string, VideoRecord>, v: string, r: VideoRecord)
    requires forall x :: x in order ==> x in m
    requires v !in order
    ensures Listing(order, m[v := r]) == Listing(order, m)
    decreases |order|
  {
    if order != [] {
      var init := order[..|order| - 1];
      assert forall x :: x in init ==> x in order;
      ListingOutside(init, m, v, r);
    }
  }

  /** Counting one more chunk for a listed video adds one to the listing's total. */
  lemma {:induction false} ListingBump(order: seq<string>, m: map<string, VideoRecord>, v: string)
    requires forall x :: x in order ==> x in m
    requires Distinct(order) && v in order
    ensures TotalChunks(Listing(order, m[v := m[v].(chunks := m[v].chunks + 1)])) == TotalChunks(Listing(order, m)) + 1
    decreases |order|
  {
    var m' := m[v := m[v].(chunks := m[v].chunks + 1)];
    var init, x := order[..|order| - 1], order[|order| - 1];
    assert forall y :: y in init ==> y in order;
    var a, b := Listing(order, m'), Listing(order, m);
    assert a == Listing(init, m') + [m'[x]] && b == Listing(init, m) + [m[x]];
    assert a[..|a| - 1] == Listing(init, m') && b[..|b| - 1] == Listing(init, m);
    if x == v {
      assert v !in init;
      ListingOutside(init, m, v, m'[v]);
    } else {
      assert v in init;
      assert Distinct(init) by {
        forall i, j | 0 <= i < j < |init| ensures init[i] != init[j] {
          assert init[i] == order[i] && init[j] == order[j];
        }
      }
      ListingBump(init, m, v);
    }
  }

  /** `list_videos()` on the collection `es`. */
  function Catalogue(es: seq<Entry>): seq<VideoRecord> {
    Listing(VideoOrder(es), Tally(es))
  }

  /**
   * The listing has one record per video, and its chunk counts add up to
   * the size of the collection.
   */
  lemma {:induction false} CatalogueTotal(es: seq<Entry>)
    ensures |Catalogue(es)| == |VideoOrder(es)|
    ensures TotalChunks(Catalogue(es)) == |es|
    decreases |es|
  {
    VideoOrderFacts(es);
    ListingLength(VideoOrder(es), Tally(es));
    if es != [] {
      CatalogueTotal(es[..|es| - 1]);
      CatalogueStep(es);
    }
  }

  /** One more entry adds one chunk to the listing's total. */
  lemma CatalogueStep(es: seq<Entry>)
    requires es != []
    ensures TotalChunks(Catalogue(es)) == TotalChunks(Catalogue(es[..|es| - 1])) + 1
  {
    var init := es[..|es| - 1];
    VideoOrderFacts(init);
    ListingStep(VideoOrder(init), Tally(init), es[|es| - 1].metadata);
  }

  /** Counting one more entry adds one chunk to the listing's total. */
  lemma ListingStep(order: seq<string>, m: map<string, VideoRecord>, md: ChunkMetadata)
    requires forall x :: x in m <==> x in order
    requires Distinct(order)
    ensures TotalChunks(Listing(AddToOrder(order, md.videoId), CountEntry(m, md))) == TotalChunks(Listing(order, m)) + 1
  {
    var v := md.videoId;
    if v in order {
      assert CountEntry(m, md) == m[v := m[v].(chunks := m[v].chunks + 1)];
      ListingBump(order, m, v);
    } else {
      assert CountEntry(m, md) == m[v := RecordOf(md, 1)];
      ListingAppend(order, m, v, RecordOf(md, 1));
    }
  }

  /** Listing a new video after the others adds its chunks to the total. */
  lemma ListingAppend(order: seq<string>, m: map<string, VideoRecord>, v: string, r: VideoRecord)
    requires forall x :: x in order ==> x in m
    requires v !in order
    ensures TotalChunks(Listing(order + [v], m[v := r])) == TotalChunks(Listing(order, m)) + r.chunks
  {
    ListingOutside(order, m, v, r);
    var l := Listing(order + [v], m[v := r]);
    assert (order + [v])[..|order|] == order;
    assert l == Listing(order, m) + [r];
    assert l[..|l| - 1] == Listing(order, m);
  }

  lemma {:induction false} ListingLength(order: seq<string>, m: map<string, VideoRecord>)
    requires forall x :: x in order ==> x in m
    ensures |Listing(order, m)| == |order|
    decreases |order|
  {
    if order != [] {
      assert forall x :: x in order[..|order| - 1] ==> x in order;
      ListingLength(order[..|order| - 1], m);
    }
  }

  /** A collection without entries of video `v` is unchanged by removing it. */
  lemma {:induction false} WithoutAbsentVideo(es: seq<Entry>, v: string)
    requires OfVideo(es, v) == []
    ensures WithoutVideo(es, v) == es
    decreases |es|
  {
    if es != [] {
      var init := es[..|es| - 1];
      assert es == init + [es[|es| - 1]];
      WithoutAbsentVideo(init, v);
    }
  }

  // ---------------------------------------------------------------------
  // Search

  /** The hit repeats the document and metadata of some entry of the collection. */
  predicate FromCollection(h: Hit, es: seq<Entry>) {
    exists e :: e in es && e.document == h.document && e.metadata == h.metadata
  }

  /** What a nearest-neighbour query returns: at most `k` hits from the collection, closest first. */
  predicate RankedHits(hits: seq<Hit>, es: seq<Entry>, k: nat) {
    && |hits| <= k && |hits| <= |es|
    && (forall h :: h in hits ==> FromCollection(h, es))
    && forall i, j :: 0 <= i < j < |hits| ==> hits[i].distance <= hits[j].distance
  }

  /** The contract required of the collection's `query`. */
  ghost predicate IsRanking(nearest: (seq<Entry>, Embedding, nat) -> seq<Hit>) {
    forall es, q, k :: RankedHits(nearest(es, q, k), es, k)
  }

  /** The formatted results: the hits with `similarity = 1 - distance`. */
  function Formatted(hits: seq<Hit>): seq<SearchResult> {
    seq(|hits|, i requires 0 <= i < |hits| =>
      SearchResult(hits[i].document, hits[i].metadata, hits[i].distance, 1.0 - hits[i].distance))
  }

  /** Closest first becomes most similar first, and similarity and distance always add up to one. */
  lemma FormattedOrder(hits: seq<Hit>)
    ensures |Formatted(hits)| == |hits|
    ensures forall i :: 0 <= i < |hits| ==>
      && Formatted(hits)[i].document == hits[i].document
      && Formatted(hits)[i].metadata == hits[i].metadata
      && Formatted(hits)[i].similarity + Formatted(hits)[i].distance == 1.0
    ensures (forall i, j :: 0 <= i < j < |hits| ==> hits[i].distance <= hits[j].distance) ==>
      forall i, j :: 0 <= i < j < |hits| ==> Formatted(hits)[i].similarity >= Formatted(hits)[j].similarity
  {
  }

  /** `search(query, k)` on collection `es`: `None` when encoding the query raises. */
  function Searched(es: seq<Entry>, embed: string -> Option<Embedding>, nearest: (seq<Entry>, Embedding, nat) -> seq<Hit>,
                    query: string, k: nat): Option<seq<SearchResult>> {
    match embed(query)
    case None => None
    case Some(q) => Some(Formatted(nearest(es, q, k)))
  }

  /** A result repeats the document and metadata of some entry of the collection. */
  predicate ResultFromCollection(r: SearchResult, es: seq<Entry>) {
    exists e :: e in es && e.document == r.document && e.metadata == r.metadata
  }

  /** What `search` promises: at most `k` stored chunks, most similar first. */
  predicate RankedResults(rs: seq<SearchResult>, es: seq<Entry>, k: nat) {
    && |rs| <= k && |rs| <= |es|
    && (forall r :: r in rs ==> ResultFromCollection(r, es))
    && forall i, j :: 0 <= i < j < |rs| ==> rs[i].similarity >= rs[j].similarity
  }

  /**
   * With a ranking query, search returns at most `k` results, each the
   * document and metadata of a stored chunk, most similar first.
   */
  lemma SearchedFacts(es: seq<Entry>, embed: string -> Option<Embedding>, nearest: (seq<Entry>, Embedding, nat) -> seq<Hit>,
                      query: string, k: nat)
    requires IsRanking(nearest)
    ensures Searched(es, embed, nearest, query, k).None? <==> embed(query).None?
    ensures Searched(es, embed, nearest, query, k).Some? ==> RankedResults(Searched(es, embed, nearest, query, k).value, es, k)
  {
    if embed(query).Some? {
      var hits := nearest(es, embed(query).value, k);
      var rs := Formatted(hits);
      assert RankedHits(hits, es, k);
      FormattedOrder(hits);
      forall r | r in rs
        ensures ResultFromCollection(r, es)
      {
        var i :| 0 <= i < |rs| && rs[i] == r;
        assert hits[i] in hits;
        assert FromCollection(hits[i], es);
      }
    }
  }

  /**
   * One turn of the loop of `chunk_text`: the window from `start` adds its
   * stripped piece, if that is not empty, and the next window starts
   * `overlap` characters before this one's end, past this one's start.
   */
  lemma ChunkTurn(text: string, size: nat, overlap: nat, start: nat, end: nat, chunk: string,
                  before: seq<string>, after: seq<string>, next: int, all: seq<string>)
    requires ValidConfig(size, overlap) && start < |text|
    requires end == WindowEnd(text, start, size) && chunk == Piece(text, Window(start, end))
    requires before + ChunksOf(text, WindowsFrom(text, size, overlap, start)) == all
    requires after == before + (if chunk != [] then [chunk] else []) && next == end - overlap
    ensures next > start
    ensures after + ChunksOf(text, WindowsFrom(text, size, overlap, next)) == all
  {
    WindowsStep(text, size, overlap, start, end);
    ChunkStep(text, Window(start, end), WindowsFrom(text, size, overlap, next), WindowsFrom(text, size, overlap, start),
              chunk, before, after, all);
  }

  /** Collecting the piece of the first of windows `ws` leaves the pieces of the rest to collect. */
  lemma ChunkStep(text: string, w: Window, rest: seq<Window>, ws: seq<Window>, chunk: string,
                  before: seq<string>, after: seq<string>, all: seq<string>)
    requires ws == [w] + rest && chunk == Piece(text, w)
    requires before + ChunksOf(text, ws) == all
    requires after == before + (if chunk != [] then [chunk] else [])
    ensures after + ChunksOf(text, rest) == all
  {
    var head := if chunk != [] then [chunk] else [];
    ChunksOfFirst(text, w, rest, ws, head);
    Regroup(before, head, after, ChunksOf(text, ws), ChunksOf(text, rest), all);
  }

  /** Moving the chunks of the first window from the pending part to the collected part. */
  lemma Regroup(before: seq<string>, head: seq<string>, after: seq<string>, cs: seq<string>, cr: seq<string>, all: seq<string>)
    requires before + cs == all && cs == head + cr && after == before + head
    ensures after + cr == all
  {
    assert after + cr == before + (head + cr);
  }

  /** `ChunksOf` of windows `ws` that begin with `w`. */
  lemma ChunksOfFirst(text: string, w: Window, rest: seq<Window>, ws: seq<Window>, head: seq<string>)
    requires ws == [w] + rest
    requires head == (if Piece(text, w) != [] then [Piece(text, w)] else [])
    ensures ChunksOf(text, ws) == head + ChunksOf(text, rest)
  {
    ChunksOfCons(text, w, rest);
  }

  /** Extending a prefix of `all` by one element. */
  lemma PrefixStep<T>(all: seq<T>, i: nat)
    requires i < |all|
    ensures all[..i + 1] == all[..i] + [all[i]]
  {
  }

  /** `ChunksOf` takes the windows one at a time. */
  lemma ChunksOfCons(text: string, w: Window, rest: seq<Window>)
    ensures ChunksOf(text, [w] + rest) == (if Piece(text, w) != [] then [Piece(text, w)] else []) + ChunksOf(text, rest)
  {
    assert ([w] + rest)[0] == w && ([w] + rest)[1..] == rest;
  }

  // ---------------------------------------------------------------------
  // The store

  class VectorStore {
    /** The sentence embedding model: a document's vector, or `None` when encoding raises. */
    const embed: string -> Option<Embedding>
    /** The collection's nearest-neighbour query over the stored entries. */
    const nearest: (seq<Entry>, Embedding, nat) -> seq<Hit>
    /** The persistent collection, in insertion order. */
    var entries: seq<Entry>

    ghost predicate Valid()
      reads this
    {
      ValidCollection(entries, embed) && IsRanking(nearest)
    }

    /** Opens the persistent collection with the entries already stored in it. */
    constructor (embed: string -> Option<Embedding>, nearest: (seq<Entry>, Embedding, nat) -> seq<Hit>, persisted: seq<Entry>)
      requires ValidCollection(persisted, embed) && IsRanking(nearest)
      ensures Valid()
      ensures this.embed == embed && this.nearest == nearest && entries == persisted
    {
      this.embed := embed;
      this.nearest := nearest;
      entries := persisted;
    }

    /** `chunk_text(text, chunk_size, overlap)` */
    method ChunkText(text: string, chunkSize: nat, overlap: nat) returns (chunks: seq<string>)
      requires ValidConfig(chunkSize, overlap)
      ensures chunks == Chunks(text, chunkSize, overlap)
    {
      if |text| <= chunkSize {
        return [text];
      }
      ghost var all := ChunksOf(text, WindowsFrom(text, chunkSize, overlap, 0));
      chunks := [];
      var start: nat := 0;
      while start < |text|
        invariant chunks + ChunksOf(text, WindowsFrom(text, chunkSize, overlap, start)) == all
        decreases |text| - start
      {
        var end := WindowEndFrom(text, start, chunkSize);
        // `text[start:end].strip()`
        var chunk := Piece(text, Window(start, end));
        ghost var before := chunks;
        if chunk != [] {
          chunks := chunks + [chunk];
        }
        var next := end - overlap;
        ChunkTurn(text, chunkSize, overlap, start, end, chunk, before, chunks, next, all);
        start := next;
        if start >= |text| {
          break;
        }
      }
      assert chunks + [] == chunks;
    }

    /**
     * Where the window from `start` ends: `chunk_size` characters on, or
     * just after the last sentence ending found in the 100 characters
     * before that, unless the window already reaches the end of the text.
     */
    method WindowEndFrom(text: string, start: nat, chunkSize: nat) returns (end: nat)
      ensures end == WindowEnd(text, start, chunkSize)
    {
      end := start + chunkSize;
      if end < |text| {
        var lo: nat := Max(0, end - LookBack);
        var bestBreak := end;
        for i := lo to end
          invariant bestBreak == LastBreak(text, lo, i, end)
        {
          BoundaryIsEnding(text, i);
          if text[i..i + 2] in SentenceEndings {
            bestBreak := i + 2;
          }
        }
        end := bestBreak;
      }
    }

    /** `_find_segments_for_chunk(chunk, segments)` */
    method FindSegmentsForChunk(chunk: string, segments: seq<Segment>) returns (relevant: seq<Segment>)
      ensures relevant == MatchingSegments(chunk, segments)
    {
      relevant := [];
      var chunkLower := Lower(chunk);
      for k := 0 to |segments|
        invariant relevant == MatchingSegments(chunk, segments[..k])
      {
        assert segments[..k + 1][..k] == segments[..k];
        if IsSubstring(Lower(segments[k].text), chunkLower) {
          relevant := relevant + [segments[k]];
        }
      }
      assert segments[..|segments|] == segments;
    }

    /**
     * `add_transcript(t)`: the number of chunks added, or `None` when
     * encoding raises; the video's old entries are removed either way.
     */
    method AddTranscript(t: Transcript) returns (added: Option<nat>)
      requires Valid()
      modifies this
      ensures Valid()
      ensures (added, entries) == Indexed(old(entries), t, embed)
    {
      ghost var es := entries;
      IndexedValid(es, t, embed);
      var _ := RemoveVideo(t.videoId, false);
      var chunks := ChunkText(t.text, DefaultChunkSize, DefaultOverlap);
      var documents, metadatas, ids := ChunkRecords(t, chunks);
      var vectors := EncodeAll(embed, documents);
      IndexedUnfold(es, t, embed, entries, chunks, vectors);
      if vectors.None? {
        return None;
      }
      var rows := seq(|ids|, k requires 0 <= k < |ids| => Entry(ids[k], documents[k], metadatas[k], vectors.value[k]));
      RowsAreNewEntries(t, chunks, vectors.value, ids, metadatas, rows);
      entries := entries + rows;
      added := Some(|chunks|);
    }

    /** The loop of `add_transcript` that gives each chunk its id and metadata. */
    method ChunkRecords(t: Transcript, chunks: seq<string>) returns (documents: seq<string>, metadatas: seq<ChunkMetadata>, ids: seq<string>)
      ensures documents == chunks && |metadatas| == |chunks| && |ids| == |chunks|
      ensures forall k :: 0 <= k < |chunks| ==> ids[k] == ComposeId(t.videoId, k)
      ensures forall k :: 0 <= k < |chunks| ==> metadatas[k] == MetadataFor(t, k, chunks[k], MatchingSegments(chunks[k], t.segments))
    {
      ghost var allIds := seq(|chunks|, k requires 0 <= k < |chunks| => ComposeId(t.videoId, k));
      ghost var allMetadatas := seq(|chunks|, k requires 0 <= k < |chunks| =>
        MetadataFor(t, k, chunks[k], MatchingSegments(chunks[k], t.segments)));
      documents, metadatas, ids := [], [], [];
      for i := 0 to |chunks|
        invariant documents == chunks[..i] && metadatas == allMetadatas[..i] && ids == allIds[..i]
      {
        var docId := ComposeId(t.videoId, i);
        var chunkSegments := FindSegmentsForChunk(chunks[i], t.segments);
        var metadataEntry := MetadataFor(t, i, chunks[i], chunkSegments);
        PrefixStep(chunks, i);
        PrefixStep(allMetadatas, i);
        PrefixStep(allIds, i);
        documents := documents + [chunks[i]];
        metadatas := metadatas + [metadataEntry];
        ids := ids + [docId];
      }
      assert documents == chunks && metadatas == allMetadatas && ids == allIds;
    }

    /**
     * `remove_video(video_id)`: the number of chunks removed. When the
     * backend raises, nothing changes and 0 is returned.
     */
    method RemoveVideo(videoId: string, backendRaises: bool) returns (removed: nat)
      requires Valid()
      modifies this
      ensures Valid()
      ensures backendRaises ==> removed == 0 && entries == old(entries)
      ensures !backendRaises ==>
        && removed == CountVideo(old(entries), videoId)
        && entries == WithoutVideo(old(entries), videoId)
        && CountVideo(entries, videoId) == 0
        && |entries| + removed == |old(entries)|
    {
      if backendRaises {
        return 0;
      }
      WithoutVideoValid(entries, embed, videoId);
      WithoutVideoTwice(entries, videoId);
      SplitByVideoCount(entries, videoId);
      var found := OfVideo(entries, videoId);
      if found != [] {
        RemoveByIds(entries, embed, videoId);
        entries := DropIds(entries, IdSet(found));
        return |found|;
      }
      WithoutAbsentVideo(entries, videoId);
      return 0;
    }

    /** `list_videos()`: one record per video, in the order videos were first stored; `[]` when the backend raises. */
    method ListVideos(backendRaises: bool) returns (videos: seq<VideoRecord>)
      ensures videos == if backendRaises then [] else Catalogue(entries)
      ensures !backendRaises ==> |videos| == |VideoOrder(entries)| && TotalChunks(videos) == |entries|
    {
      if backendRaises {
        return [];
      }
      var order: seq<string> := [];
      var table: map<string, VideoRecord> := map[];
      for k := 0 to |entries|
        invariant order == VideoOrder(entries[..k]) && table == Tally(entries[..k])
      {
        assert entries[..k + 1][..k] == entries[..k];
        VideoOrderFacts(entries[..k]);
        TallyStep(entries[..k + 1]);
        var md := entries[k].metadata;
        if md.videoId !in table {
          table := table[md.videoId := RecordOf(md, 0)];
          order := order + [md.videoId];
        }
        table := table[md.videoId := table[md.videoId].(chunks := table[md.videoId].chunks + 1)];
      }
      assert entries[..|entries|] == entries;
      VideoOrderFacts(entries);
      CatalogueTotal(entries);
      videos := Listing(order, table);
    }

    /**
     * `get_collection_stats()`: `None` (the empty dictionary) when counting
     * raises; a failing listing counts as no videos.
     */
    method GetCollectionStats(countRaises: bool, listRaises: bool) returns (stats: Option<Stats>)
      ensures countRaises <==> stats.None?
      ensures stats.Some? ==>
        && stats.value.totalChunks == |entries|
        && stats.value.totalVideos == (if listRaises then 0 else |VideoOrder(entries)|)
        && stats.value.collectionName == CollectionName
        && stats.value.embeddingModel == EmbeddingModel
      ensures stats.Some? && !listRaises ==>
        stats.value.totalVideos <= stats.value.totalChunks
        && (stats.value.totalChunks == 0 <==> stats.value.totalVideos == 0)
    {
      if countRaises {
        return None;
      }
      var count := |entries|;
      var videos := ListVideos(listRaises);
      VideoOrderFacts(entries);
      if entries != [] {
        assert entries[0] in entries;
      }
      stats := Some(Stats(count, |videos|, CollectionName, EmbeddingModel));
    }

    /**
     * `clear_database()`: `true` and an empty collection. When
     * `delete_collection` raises, `false` and no change; when it succeeds
     * but re-creating the collection raises, `false` with the data gone.
     */
    method ClearDatabase(deleteRaises: bool, recreateRaises: bool) returns (ok: bool)
      requires Valid()
      modifies this
      ensures Valid()
      ensures ok == (!deleteRaises && !recreateRaises)
      ensures entries == if deleteRaises then old(entries) else []
    {
      if deleteRaises {
        return false;
      }
      entries := [];
      if recreateRaises {
        return false;
      }
      return true;
    }

    /** The formatting loop of `search`. */
    method FormatResults(hits: seq<Hit>) returns (results: seq<SearchResult>)
      ensures results == Formatted(hits)
    {
      results := [];
      for i := 0 to |hits|
        invariant results == Formatted(hits[..i])
      {
        assert hits[..i + 1][..i] == hits[..i];
        results := results + [SearchResult(hits[i].document, hits[i].metadata, hits[i].distance, 1.0 - hits[i].distance)];
      }
      assert hits[..|hits|] == hits;
    }

    /**
     * `search(query, top_k)`: the `top_k` (default 5) closest chunks, most
     * similar first; `None` when encoding the query raises.
     */
    method Search(query: string, topK: Option<nat>) returns (r: Option<seq<SearchResult>>)
      requires Valid()
      ensures r == Searched(entries, embed, nearest, query, topK.GetOr(TopKResults))
      ensures r.None? <==> embed(query).None?
      ensures r.Some? ==> RankedResults(r.value, entries, topK.GetOr(TopKResults))
    {
      var k := topK.GetOr(TopKResults);
      SearchedFacts(entries, embed, nearest, query, k);
      var q := embed(query);
      if q.None? {
        return None;
      }
      var hits := nearest(entries, q.value, k);
      var results := FormatResults(hits);
      r := Some(results);
    }
  }
}
