/**
 * The transcript records that flow from the transcript extractor
 * (src/transcript_extractor.py) to the vector store (src/vector_store.py).
 */
module Transcripts {
  import opened Wrappers

  /** One timed caption: `{start, duration, text}`, times in seconds. */
  datatype Segment = Segment(start: real, duration: real, text: string)

  /**
   * The video metadata dictionary. Every key is optional because the store
   * reads each one with `metadata.get(key, default)`.
   */
  datatype VideoInfo = VideoInfo(
    title: Option<string>,
    uploader: Option<string>,
    uploadDate: Option<string>,
    url: Option<string>,
    duration: Option<int>)

  /** `{video_id, metadata, transcript, segments, language}` as saved in the transcript cache. */
  datatype Transcript = Transcript(
    videoId: string,
    info: VideoInfo,
    text: string,
    segments: seq<Segment>,
    language: string)
}
