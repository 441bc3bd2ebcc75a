/**
 * The payload records passed between the tools. Their defining module
 * (`fact_checker_agent/models/search_helper_models.py`) is not part of this
 * model, so each record holds only the fields the modelled code reads or
 * writes; a field a constructor call leaves out takes the empty value.
 */
module Payloads {
  import opened Options

  /** A web result: search hit, scraped page or extracted link. `summary` is
      what the page scraper fills; `contentSummary` is the separate
      `content_summary` key that the web-summary tool reads. */
  datatype BasePayload = BasePayload(
    url: string,
    title: string,
    shortDescription: string,
    summary: string,
    contentSummary: Option<string>,
    isYoutube: bool)

  /** A payload with only a URL and a title, the other fields empty. */
  function LinkPayload(url: string, title: string): BasePayload {
    BasePayload(url, title, "", "", None, false)
  }

  /** An image kept by the HTML parser. */
  datatype ImagePayload = ImagePayload(src: string, height: int)

  /** Page text and images, as returned next to the search results. */
  datatype PageContent = PageContent(fullText: string, images: seq<ImagePayload>)

  /** The `video_details` block of a video's metadata. */
  datatype VideoDetails = VideoDetails(
    channel: Option<string>,
    airTime: Option<string>,
    durationSeconds: Option<int>,
    publishedAt: Option<string>)

  /** Metadata of one video. */
  datatype YoutubePayload = YoutubePayload(
    title: Option<string>,
    summary: Option<string>,
    url: Option<string>,
    resultRank: int,
    details: VideoDetails,
    likeCount: int,
    viewCount: int,
    isYoutube: bool)
}
