/**
 * The transcript extractor (src/transcript_extractor.py): recognising a
 * YouTube video id in a URL, and the transcript cache that extraction
 * reads and refreshes.
 *
 * The two URL patterns are regular expressions searched with Python's
 * `re.search`; they are written out here as the scans the regular
 * expression engine performs. Fetching a transcript and its metadata from
 * YouTube is a pair of functions of the video id; the JSON files of the
 * cache are a map from file name to transcript.
 */
module Extractor {
  import opened Wrappers
  import opened Text
  import opened Transcripts

  const WatchPrefix := "youtube.com/watch?v="
  const ShortPrefix := "youtu.be/"
  const EmbedPrefix := "youtube.com/embed/"
  /** The fixed part of the second pattern, `youtube\.com/watch\?`. */
  const WatchQuery := "youtube.com/watch?"
  /** The address the extractor itself builds for a video id. */
  const WatchAddress := WatchLead + WatchPrefix
  const WatchLead := "https://www."
  const TranscriptSuffix := "_transcript.json"

  // ---------------------------------------------------------------------
  // Video ids

  /** `[^&\n?#]` */
  predicate IdChar(c: char) {
    c != '&' && c != '\n' && c != '?' && c != '#'
  }

  /** `[a-zA-Z0-9_-]` */
  predicate BareIdChar(c: char) {
    'a' <= c <= 'z' || 'A' <= c <= 'Z' || '0' <= c <= '9' || c == '_' || c == '-'
  }

  /** Where the run of id characters that starts at `k` ends: `[^&\n?#]+` is greedy. */
  function RunEnd(s: string, k: nat): (j: nat)
    requires k <= |s|
    ensures k <= j <= |s|
    ensures forall i :: k <= i < j ==> IdChar(s[i])
    ensures j < |s| ==> !IdChar(s[j])
    decreases |s| - k
  {
    if k < |s| && IdChar(s[k]) then RunEnd(s, k + 1) else k
  }

  /** The id after the prefix `p` at position `at`, when at least one id character follows. */
  function IdAfter(s: string, at: nat, p: string): Option<string>
  {
    var k := at + |p|;
    if OccursAt(p, s, at) && k < |s| && IdChar(s[k]) then Some(s[k..RunEnd(s, k)]) else None
  }

  /** The first pattern tried at one position: its alternatives in order. */
  function FirstPatternAt(s: string, at: nat): Option<string> {
    match IdAfter(s, at, WatchPrefix)
    case Some(id) => Some(id)
    case None =>
      match IdAfter(s, at, ShortPrefix)
      case Some(id) => Some(id)
      case None => IdAfter(s, at, EmbedPrefix)
  }

  /** `re.search` of the first pattern from position `at` on: the leftmost match wins. */
  function SearchFirst(s: string, at: nat): Option<string>
    decreases |s| - at
  {
    if at > |s| then None
    else
      match FirstPatternAt(s, at)
      case Some(id) => Some(id)
      case None => SearchFirst(s, at + 1)
  }

  /** The index of the first newline at or after `k`, or the end of `s`. */
  function LineEnd(s: string, k: nat): (j: nat)
    requires k <= |s|
    ensures k <= j <= |s|
    ensures forall i :: k <= i < j ==> s[i] != '\n'
    ensures j < |s| ==> s[j] == '\n'
    decreases |s| - k
  {
    if k < |s| && s[k] != '\n' then LineEnd(s, k + 1) else k
  }

  /** `v=` followed by an id character at `q`. */
  predicate VAt(s: string, q: nat) {
    OccursAt("v=", s, q) && q + 2 < |s| && IdChar(s[q + 2])
  }

  /**
   * The greedy `.*` backs off from `q` towards `lo`: the last place on the
   * line where `v=` and an id character follow.
   */
  function LastV(s: string, lo: nat, q: int): (r: Option<nat>)
    ensures r.Some? ==> lo <= r.value <= q && VAt(s, r.value)
    ensures r.Some? ==> forall i :: r.value < i <= q ==> !VAt(s, i)
    ensures r.None? ==> forall i :: lo <= i <= q ==> !VAt(s, i)
    decreases q - lo
  {
    if q < lo then None
    else if VAt(s, q) then Some(q)
    else LastV(s, lo, q - 1)
  }

  /** The second pattern at one position. */
  function SecondPatternAt(s: string, at: nat): Option<string> {
    var b := at + |WatchQuery|;
    if OccursAt(WatchQuery, s, at) then
      match LastV(s, b, LineEnd(s, b))
      case Some(q) => Some(s[q + 2..RunEnd(s, q + 2)])
      case None => None
    else None
  }

  /** `re.search` of the second pattern from position `at` on. */
  function SearchSecond(s: string, at: nat): Option<string>
    decreases |s| - at
  {
    if at > |s| then None
    else
      match SecondPatternAt(s, at)
      case Some(id) => Some(id)
      case None => SearchSecond(s, at + 1)
  }

  /** `re.match(r'^[a-zA-Z0-9_-]{11}$', s)`: `$` also matches before a final newline. */
  predicate IsBareId(s: string) {
    && (|s| == 11 || (|s| == 12 && s[11] == '\n'))
    && forall i :: 0 <= i < 11 ==> BareIdChar(s[i])
  }

  /** The id the URL patterns find, the first pattern before the second. */
  function UrlId(url: string): Option<string> {
    match SearchFirst(url, 0)
    case Some(id) => Some(id)
    case None => SearchSecond(url, 0)
  }

  /** `extract_video_id(url)` */
  function ExtractVideoId(url: string): Option<string> {
    match UrlId(url)
    case Some(id) => Some(id)
    case None => if IsBareId(url) then Some(url) else None
  }

  /** A found id is a non-empty run of id characters at some position of `s`. */
  ghost predicate IsIdIn(id: string, s: string) {
    id != [] && (forall i :: 0 <= i < |id| ==> IdChar(id[i])) && exists k :: OccursAt(id, s, k)
  }

  lemma IdAfterFacts(s: string, at: nat, p: string)
    requires IdAfter(s, at, p).Some?
    ensures IsIdIn(IdAfter(s, at, p).value, s)
  {
    var k := at + |p|;
    var id := s[k..RunEnd(s, k)];
    assert OccursAt(id, s, k);
  }

  lemma {:induction false} SearchFirstFacts(s: string, at: nat)
    requires SearchFirst(s, at).Some?
    ensures IsIdIn(SearchFirst(s, at).value, s)
    decreases |s| - at
  {
    if FirstPatternAt(s, at).Some? {
      if IdAfter(s, at, WatchPrefix).Some? {
        IdAfterFacts(s, at, WatchPrefix);
      } else if IdAfter(s, at, ShortPrefix).Some? {
        IdAfterFacts(s, at, ShortPrefix);
      } else {
        IdAfterFacts(s, at, EmbedPrefix);
      }
    } else {
      SearchFirstFacts(s, at + 1);
    }
  }

  lemma SecondPatternFacts(s: string, at: nat)
    requires SecondPatternAt(s, at).Some?
    ensures IsIdIn(SecondPatternAt(s, at).value, s)
  {
    var b := at + |WatchQuery|;
    var q := LastV(s, b, LineEnd(s, b)).value;
    var id := s[q + 2..RunEnd(s, q + 2)];
    assert OccursAt(id, s, q + 2);
  }

  lemma {:induction false} SearchSecondFacts(s: string, at: nat)
    requires SearchSecond(s, at).Some?
    ensures IsIdIn(SearchSecond(s, at).value, s)
    decreases |s| - at
  {
    if SecondPatternAt(s, at).Some? {
      SecondPatternFacts(s, at);
    } else {
      SearchSecondFacts(s, at + 1);
    }
  }

  /**
   * An id found by a URL pattern is a non-empty piece of the URL without
   * `&`, `?`, `#` or a newline. Otherwise the URL itself is returned, and
   * only when it is a bare 11-character id (with perhaps a final newline).
   */
  lemma ExtractVideoIdFacts(url: string)
    ensures UrlId(url).Some? ==> ExtractVideoId(url) == UrlId(url) && IsIdIn(UrlId(url).value, url)
    ensures UrlId(url).None? ==> (ExtractVideoId(url).Some? <==> IsBareId(url))
    ensures UrlId(url).None? && IsBareId(url) ==> ExtractVideoId(url) == Some(url)
  {
    if SearchFirst(url, 0).Some? {
      SearchFirstFacts(url, 0);
    } else if SearchSecond(url, 0).Some? {
      SearchSecondFacts(url, 0);
    }
  }

  /** None of the URL prefixes can start with a character other than `y`. */
  lemma NoMatchOffY(s: string, at: nat)
    requires at < |s| && s[at] != 'y'
    ensures FirstPatternAt(s, at).None?
    ensures SecondPatternAt(s, at).None?
  {
    Mismatch(s, at, WatchPrefix, 0);
    Mismatch(s, at, ShortPrefix, 0);
    Mismatch(s, at, EmbedPrefix, 0);
    Mismatch(s, at, WatchQuery, 0);
  }

  /** Positions without a `y` are skipped by the search for the first pattern. */
  lemma {:induction false} NoFirstMatchBefore(s: string, at: nat, stop: nat)
    requires at <= stop <= |s|
    requires forall i :: at <= i < stop ==> s[i] != 'y'
    ensures SearchFirst(s, at) == SearchFirst(s, stop)
    decreases stop - at
  {
    if at < stop {
      NoMatchOffY(s, at);
      NoFirstMatchBefore(s, at + 1, stop);
    }
  }

  /** The id characters right after an occurrence of `p` are taken whole. */
  lemma IdAfterPrefix(pre: string, p: string, id: string)
    requires id != [] && forall i :: 0 <= i < |id| ==> IdChar(id[i])
    ensures IdAfter(pre + p + id, |pre|, p) == Some(id)
  {
    var s := pre + p + id;
    var k := |pre| + |p|;
    assert s[|pre|..k] == p;
    assert s[k..] == id;
    assert forall i :: k <= i < |s| ==> s[i] == id[i - k];
    assert OccursAt(p, s, |pre|);
    assert s[k] == id[0];
    RunToEnd(s, k);
    assert s[k..RunEnd(s, k)] == id;
  }

  /**
   * The address the extractor builds for an id, `https://www.youtube.com/watch?v=<id>`,
   * gives the id back, for any id of id characters.
   */
  lemma WatchAddressRoundTrip(id: string)
    requires id != [] && forall i :: 0 <= i < |id| ==> IdChar(id[i])
    ensures ExtractVideoId(WatchAddress + id) == Some(id)
  {
    var pre := WatchLead;
    var s := pre + WatchPrefix + id;
    NoYInLead();
    assert forall i :: 0 <= i < |pre| ==> s[i] == pre[i];
    NoFirstMatchBefore(s, 0, |pre|);
    IdAfterPrefix(pre, WatchPrefix, id);
    assert FirstPatternAt(s, |pre|) == Some(id);
  }

  lemma NoYInLead()
    ensures forall i :: 0 <= i < |WatchLead| ==> WatchLead[i] != 'y'
  {
  }

  lemma {:induction false} RunToEnd(s: string, k: nat)
    requires k <= |s| && forall i :: k <= i < |s| ==> IdChar(s[i])
    ensures RunEnd(s, k) == |s|
    decreases |s| - k
  {
    if k < |s| {
      RunToEnd(s, k + 1);
    }
  }

  /** A string without a dot matches neither URL pattern anywhere. */
  lemma {:induction false} NoDotNoUrl(s: string, at: nat)
    requires '.' !in s
    ensures SearchFirst(s, at).None? && SearchSecond(s, at).None?
    decreases |s| - at
  {
    if at <= |s| {
      DotBlocks(s, at, WatchPrefix, 7);
      DotBlocks(s, at, ShortPrefix, 5);
      DotBlocks(s, at, EmbedPrefix, 7);
      DotBlocks(s, at, WatchQuery, 7);
      NoDotNoUrl(s, at + 1);
    }
  }

  /** A pattern piece with a dot cannot occur in a string without one. */
  lemma DotBlocks(s: string, at: nat, p: string, k: nat)
    requires '.' !in s && k < |p| && p[k] == '.'
    ensures !OccursAt(p, s, at)
  {
    Mismatch(s, at, p, k);
  }

  /** A pattern does not occur where one of its characters is missing. */
  lemma Mismatch(s: string, at: nat, p: string, k: nat)
    requires k < |p| && (at + k < |s| ==> s[at + k] != p[k])
    ensures !OccursAt(p, s, at)
  {
    if at + |p| <= |s| {
      assert s[at..at + |p|][k] == s[at + k];
    }
  }

  /** A bare id is returned as it is. */
  lemma BareIdRoundTrip(id: string)
    requires IsBareId(id)
    ensures ExtractVideoId(id) == Some(id)
  {
    assert '.' !in id by {
      forall i | 0 <= i < |id| ensures id[i] != '.' {
        if i < 11 {
          assert BareIdChar(id[i]);
        }
      }
    }
    NoDotNoUrl(id, 0);
  }

  // ---------------------------------------------------------------------
  // Transcripts and the cache

  /** One entry of the fetched transcript: `entry.start`, `entry.duration`, `entry.text`. */
  datatype FetchedEntry = FetchedEntry(start: real, duration: real, text: string)

  /** What the transcript API gives for a video: its entries, their text formatted, and the language code. */
  datatype Fetched = Fetched(entries: seq<FetchedEntry>, formatted: string, language: string)

  /** The segments built from the fetched entries, one each, in order. */
  function SegmentsOf(entries: seq<FetchedEntry>): (segs: seq<Segment>)
    ensures |segs| == |entries|
    ensures forall k :: 0 <= k < |entries| ==>
      segs[k].start == entries[k].start && segs[k].duration == entries[k].duration && segs[k].text == entries[k].text
  {
    seq(|entries|, k requires 0 <= k < |entries| => Segment(entries[k].start, entries[k].duration, entries[k].text))
  }

  /** `extract_transcript(video_id)`, given what the API returns (`None` when it raises) and the metadata. */
  function TranscriptOf(videoId: string, fetched: Option<Fetched>, info: VideoInfo): (r: Option<Transcript>)
    ensures r.Some? <==> fetched.Some?
    ensures r.Some? ==>
      && r.value.videoId == videoId && r.value.info == info
      && r.value.text == fetched.value.formatted && r.value.segments == SegmentsOf(fetched.value.entries)
  {
    match fetched
    case None => None
    case Some(f) => Some(Transcript(videoId, info, f.formatted, SegmentsOf(f.entries), f.language))
  }

  /** `f"{video_id}_transcript.json"` */
  function FileName(videoId: string): string {
    videoId + TranscriptSuffix
  }

  /** Different videos are cached in different files. */
  lemma FileNameInjective(a: string, b: string)
    requires FileName(a) == FileName(b)
    ensures a == b
  {
    assert a == FileName(a)[..|a|];
    assert b == FileName(b)[..|b|];
  }

  /**
   * `extract_and_save_transcript(url, force_refresh)` on the cache `files`:
   * the transcript returned and the cache afterwards.
   */
  function ExtractAndSaved(files: map<string, Transcript>, fetch: string -> Option<Fetched>, metadata: string -> VideoInfo,
                           url: string, forceRefresh: bool): (Option<Transcript>, map<string, Transcript>) {
    match ExtractVideoId(url)
    case None => (None, files)
    case Some(id) =>
      if !forceRefresh && FileName(id) in files then (Some(files[FileName(id)]), files)
      else
        match TranscriptOf(id, fetch(id), metadata(id))
        case None => (None, files)
        case Some(t) => (Some(t), files[FileName(t.videoId) := t])
  }

  /**
   * Without a forced refresh a cached transcript is returned as it is,
   * whatever the transcript service would give. A failure saves nothing;
   * a success saves exactly the returned transcript under its video's file.
   */
  lemma ExtractAndSavedFacts(files: map<string, Transcript>, fetch: string -> Option<Fetched>, other: string -> Option<Fetched>,
                             metadata: string -> VideoInfo, url: string, forceRefresh: bool)
    ensures var id := ExtractVideoId(url);
      var (r, files') := ExtractAndSaved(files, fetch, metadata, url, forceRefresh);
      && (id.None? ==> r.None? && files' == files)
      && (id.Some? && !forceRefresh && FileName(id.value) in files ==> r == Some(files[FileName(id.value)]) && files' == files)
      && (id.Some? && (forceRefresh || FileName(id.value) !in files) ==>
            && (r.None? <==> fetch(id.value).None?)
            && (r.None? ==> files' == files)
            && (r.Some? ==> r.value.videoId == id.value && files' == files[FileName(id.value) := r.value]))
    ensures ExtractVideoId(url).Some? && !forceRefresh && FileName(ExtractVideoId(url).value) in files ==>
      ExtractAndSaved(files, fetch, metadata, url, forceRefresh) == ExtractAndSaved(files, other, metadata, url, forceRefresh)
  {
  }

  /**
   * Saving and loading: once a transcript has been extracted, asking again
   * without a refresh returns it from the cache and changes nothing.
   */
  lemma CachedAfterExtraction(files: map<string, Transcript>, fetch: string -> Option<Fetched>, metadata: string -> VideoInfo,
                              url: string, forceRefresh: bool)
    requires ExtractAndSaved(files, fetch, metadata, url, forceRefresh).0.Some?
    ensures var (r, files') := ExtractAndSaved(files, fetch, metadata, url, forceRefresh);
      ExtractAndSaved(files', fetch, metadata, url, false) == (r, files')
  {
  }

  /** `batch_extract_transcripts(urls, force_refresh)`: the transcripts found, in order, and the cache afterwards. */
  function Batch(files: map<string, Transcript>, fetch: string -> Option<Fetched>, metadata: string -> VideoInfo,
                 urls: seq<string>, forceRefresh: bool): (seq<Transcript>, map<string, Transcript>)
    decreases |urls|
  {
    if urls == [] then ([], files)
    else
      var (rs, files1) := Batch(files, fetch, metadata, urls[..|urls| - 1], forceRefresh);
      var (r, files2) := ExtractAndSaved(files1, fetch, metadata, urls[|urls| - 1], forceRefresh);
      (rs + (if r.Some? then [r.value] else []), files2)
  }

  /** A batch gives at most one transcript per URL. */
  lemma {:induction false} BatchFacts(files: map<string, Transcript>, fetch: string -> Option<Fetched>, metadata: string -> VideoInfo,
                                      urls: seq<string>, forceRefresh: bool)
    ensures |Batch(files, fetch, metadata, urls, forceRefresh).0| <= |urls|
    decreases |urls|
  {
    if urls != [] {
      BatchFacts(files, fetch, metadata, urls[..|urls| - 1], forceRefresh);
    }
  }

  /** One more URL extends a batch by that URL's extraction, run against the cache the batch left. */
  lemma BatchSnoc(files: map<string, Transcript>, fetch: string -> Option<Fetched>, metadata: string -> VideoInfo,
                  urls: seq<string>, url: string, forceRefresh: bool)
    ensures var (rs, files1) := Batch(files, fetch, metadata, urls, forceRefresh);
            var (r, files2) := ExtractAndSaved(files1, fetch, metadata, url, forceRefresh);
            Batch(files, fetch, metadata, urls + [url], forceRefresh) == (rs + (if r.Some? then [r.value] else []), files2)
  {
    assert (urls + [url])[..|urls|] == urls;
  }

  class TranscriptExtractor {
    /** The transcript files, by file name. */
    var files: map<string, Transcript>
    /** The transcript service: the transcript of a video, `None` when none can be had. */
    const fetch: string -> Option<Fetched>
    /** `get_video_metadata(video_id)`, which never raises. */
    const metadata: string -> VideoInfo

    constructor (files: map<string, Transcript>, fetch: string -> Option<Fetched>, metadata: string -> VideoInfo)
      ensures this.files == files && this.fetch == fetch && this.metadata == metadata
    {
      this.files := files;
      this.fetch := fetch;
      this.metadata := metadata;
    }

    /** `extract_transcript(video_id)`: the segments are built one per fetched entry. */
    method ExtractTranscript(videoId: string) returns (r: Option<Transcript>)
      ensures r == TranscriptOf(videoId, fetch(videoId), metadata(videoId))
    {
      var fetched := fetch(videoId);
      if fetched.None? {
        return None;
      }
      var entries := fetched.value.entries;
      var segments: seq<Segment> := [];
      for i := 0 to |entries|
        invariant |segments| == i
        invariant forall k :: 0 <= k < i ==> segments[k] == Segment(entries[k].start, entries[k].duration, entries[k].text)
      {
        segments := segments + [Segment(entries[i].start, entries[i].duration, entries[i].text)];
      }
      assert segments == SegmentsOf(entries);
      r := Some(Transcript(videoId, metadata(videoId), fetched.value.formatted, segments, fetched.value.language));
    }

    /** `extract_and_save_transcript(url, force_refresh)` */
    method ExtractAndSave(url: string, forceRefresh: bool) returns (r: Option<Transcript>)
      modifies this
      ensures (r, files) == ExtractAndSaved(old(files), fetch, metadata, url, forceRefresh)
    {
      var videoId := ExtractVideoId(url);
      if videoId.None? {
        return None;
      }
      var name := FileName(videoId.value);
      if !forceRefresh && name in files {
        return Some(files[name]);
      }
      r := ExtractTranscript(videoId.value);
      if r.Some? {
        files := files[FileName(r.value.videoId) := r.value];
      }
    }

    /** `batch_extract_transcripts(urls, force_refresh)` */
    method BatchExtract(urls: seq<string>, forceRefresh: bool) returns (results: seq<Transcript>)
      modifies this
      ensures (results, files) == Batch(old(files), fetch, metadata, urls, forceRefresh)
      ensures |results| <= |urls|
    {
      BatchFacts(files, fetch, metadata, urls, forceRefresh);
      results := [];
      for i := 0 to |urls|
        invariant (results, files) == Batch(old(files), fetch, metadata, urls[..i], forceRefresh)
      {
        assert urls[..i + 1] == urls[..i] + [urls[i]];
        BatchSnoc(old(files), fetch, metadata, urls[..i], urls[i], forceRefresh);
        ghost var before := (results, files);
        var data := ExtractAndSave(urls[i], forceRefresh);
        assert (data, files) == ExtractAndSaved(before.1, fetch, metadata, urls[i], forceRefresh);
        if data.Some? {
          results := results + [data.value];
        }
        assert results == before.0 + (if data.Some? then [data.value] else []);
      }
      assert urls[..|urls|] == urls;
    }
  }
}
