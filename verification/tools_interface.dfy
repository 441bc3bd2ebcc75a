/**
 * `fact_checker_agent/tool/tools_interface.py`: the three tools the agents
 * call. Scraping, the LLM summariser and the duration test are parameters or
 * input data; the filtering, truncation and capping around them is modelled.
 */
module ToolsInterface {
  import opened Options
  import opened Strings
  import opened Payloads
  import UrlExecutor
  import SearchExecutor
  import Sanitizer
  import Dedup

  /** `MAX_VIDEOS_TO_PROCESS`. */
  const MaxVideosToProcess: nat := 5

  /** A page summary longer than this is truncated ... */
  const SummaryLimit: nat := 4500

  /** ... to this many characters, followed by `Ellipsis`. */
  const TruncatedLength: nat := 1500

  const Ellipsis: string := "..."

  /** How many results each summarising tool returns at most. */
  const ResultCap: nat := 2

  /** The duration limit, in minutes, handed to the duration test. */
  const VideoMinutesLimit: nat := 6

  // ---------------------------------------------------------------------------
  // summarize_web_pages
  // ---------------------------------------------------------------------------

  /** Shortening one scraped page's `content_summary`. */
  function TruncateSummary(p: BasePayload): (r: BasePayload)
    ensures r == p.(contentSummary := r.contentSummary)
    ensures r.contentSummary.Some? <==> p.contentSummary.Some?
    ensures p.contentSummary.Some? && |p.contentSummary.value| > SummaryLimit ==>
              && |r.contentSummary.value| == TruncatedLength + |Ellipsis|
              && r.contentSummary.value[..TruncatedLength] == p.contentSummary.value[..TruncatedLength]
              && r.contentSummary.value[TruncatedLength..] == Ellipsis
    ensures p.contentSummary.None? || |p.contentSummary.value| <= SummaryLimit ==> r == p
    ensures r.contentSummary.Some? ==> |r.contentSummary.value| <= SummaryLimit
  {
    match p.contentSummary
    case Some(s) =>
      if |s| > 0 && |s| > SummaryLimit then p.(contentSummary := Some(s[..TruncatedLength] + Ellipsis)) else p
    case None => p
  }

  /** Truncating twice is truncating once. */
  lemma TruncateIdempotent(p: BasePayload)
    ensures TruncateSummary(TruncateSummary(p)) == TruncateSummary(p)
  {
  }

  /** What `summarize_web_pages` returns: a placeholder object when there is
      nothing to summarise, otherwise scraped pages. */
  datatype WebSummary =
    | NothingToSummarize(content: string, sources: seq<string>)
    | Summaries(pages: seq<BasePayload>)

  const NoPagesMessage: string := "No web pages to summarize."

  /** The first `ResultCap` pages, each truncated. */
  function FirstPagesTruncated(scraped: seq<BasePayload>): (r: seq<BasePayload>)
    ensures |r| == if |scraped| < ResultCap then |scraped| else ResultCap
    ensures forall i :: 0 <= i < |r| ==> r[i] == TruncateSummary(scraped[i])
  {
    var n := if |scraped| < ResultCap then |scraped| else ResultCap;
    seq(n, i requires 0 <= i < n => TruncateSummary(scraped[i]))
  }

  /** `summarize_web_pages`: every scraped page's summary is truncated, and the
      first two pages are returned. Scraper exceptions propagate. */
  function SummarizeWebPages(urls: seq<BasePayload>, tasks: seq<UrlExecutor.Task>): (r: Result<WebSummary, UrlExecutor.ScrapeError>)
    requires |tasks| == |urls|
    requires forall i :: 0 <= i < |tasks| ==> tasks[i].worker < UrlExecutor.FetchWorkers
    ensures |urls| == 0 ==> r == Ok(NothingToSummarize(NoPagesMessage, []))
    ensures |urls| > 0 ==> (r.Ok? <==> UrlExecutor.ExtractExternalLinksInfo(urls, tasks).Ok?)
    ensures |urls| > 0 && r.Ok? ==>
              var scraped := UrlExecutor.ExtractExternalLinksInfo(urls, tasks).value.0;
              && r.value.Summaries?
              && |r.value.pages| == (if |urls| < ResultCap then |urls| else ResultCap)
              && forall i :: 0 <= i < |r.value.pages| ==>
                   r.value.pages[i] == TruncateSummary(scraped[i]) && r.value.pages[i].url == urls[i].url
  {
    if |urls| == 0 then Ok(NothingToSummarize(NoPagesMessage, []))
    else
      var fetched := UrlExecutor.ExtractExternalLinksInfo(urls, tasks);
      if fetched.Err? then Err(fetched.error)
      else
        Ok(Summaries(FirstPagesTruncated(fetched.value.0)))
  }

  /** The scraper fills `summary`, never `content_summary`, so the truncation
      never applies to freshly scraped pages: the tool returns the first two
      scraped pages as they are. */
  lemma {:induction false} ScrapedPagesAreNotTruncated(urls: seq<BasePayload>, tasks: seq<UrlExecutor.Task>)
    requires |tasks| == |urls| && |urls| > 0
    requires forall i :: 0 <= i < |tasks| ==> tasks[i].worker < UrlExecutor.FetchWorkers
    requires SummarizeWebPages(urls, tasks).Ok?
    ensures var scraped := UrlExecutor.ExtractExternalLinksInfo(urls, tasks).value.0;
            SummarizeWebPages(urls, tasks).value.pages == scraped[..|SummarizeWebPages(urls, tasks).value.pages|]
  {
  }

  // ---------------------------------------------------------------------------
  // summarize_youtube_videos_in_bulk
  // ---------------------------------------------------------------------------

  /** A `duration` value: text such as "4:31", or a number of seconds. */
  datatype DurationValue = DurationText(text: string) | DurationNumber(number: int)

  /** Python truthiness: empty text and zero are false. */
  predicate Truthy(d: DurationValue) {
    if d.DurationText? then |d.text| > 0 else d.number != 0
  }

  /** A video search hit, reduced to its `link` and `duration` keys
      (`None` when absent or `None`). */
  datatype VideoItem = VideoItem(link: Option<string>, duration: Option<DurationValue>)

  predicate HasDuration(item: VideoItem) {
    item.duration.Some? && Truthy(item.duration.value)
  }

  /** The first filter: a duration and a YouTube link. */
  predicate IsYoutubeVideo(item: VideoItem) {
    HasDuration(item) && item.link.Some? && Contains(item.link.value, "youtube")
  }

  /** The exceptions that escape the video tool: `'youtube' in None` for an
      item with a duration but no link, or a failed summariser call. */
  datatype VideoToolError = MissingLink | SummariserFailed(reason: string)

  /** The items that pass both filters, in input order. `withinLimit` is the
      duration test `is_duration_within_limit`. */
  function ShortVideos(items: seq<VideoItem>, withinLimit: (DurationValue, nat) -> bool): (r: seq<VideoItem>)
    ensures |r| <= |items|
    ensures forall i :: 0 <= i < |r| ==> IsYoutubeVideo(r[i]) && withinLimit(r[i].duration.value, VideoMinutesLimit)
    decreases |items|
  {
    if |items| == 0 then []
    else
      var rest := ShortVideos(items[1..], withinLimit);
      if IsYoutubeVideo(items[0]) && withinLimit(items[0].duration.value, VideoMinutesLimit) then [items[0]] + rest else rest
  }

  /** The filters distribute over concatenation: relative order is kept. */
  lemma {:induction false} ShortVideosAppend(a: seq<VideoItem>, b: seq<VideoItem>, withinLimit: (DurationValue, nat) -> bool)
    ensures ShortVideos(a + b, withinLimit) == ShortVideos(a, withinLimit) + ShortVideos(b, withinLimit)
    decreases |a|
  {
    if |a| == 0 {
      assert a + b == b;
    } else {
      assert (a + b)[0] == a[0];
      assert (a + b)[1..] == a[1..] + b;
      ShortVideosAppend(a[1..], b, withinLimit);
    }
  }

  /** A single item passes exactly when it is a YouTube video within the limit. */
  lemma ShortVideosSingleton(item: VideoItem, withinLimit: (DurationValue, nat) -> bool)
    ensures ShortVideos([item], withinLimit) ==
              if IsYoutubeVideo(item) && withinLimit(item.duration.value, VideoMinutesLimit) then [item] else []
  {
    assert [item][1..] == [];
  }

  /** Some item would make the first filter raise. */
  predicate SomeLinkMissing(items: seq<VideoItem>) {
    exists i :: 0 <= i < |items| && HasDuration(items[i]) && items[i].link.None?
  }

  /** The items handed to the summariser: at most five, and a prefix of the
      filtered list. */
  function VideosToProcess(items: seq<VideoItem>, withinLimit: (DurationValue, nat) -> bool): (r: seq<VideoItem>)
    ensures |r| <= MaxVideosToProcess && |r| <= |ShortVideos(items, withinLimit)|
    ensures r == ShortVideos(items, withinLimit)[..|r|]
    ensures |r| == MaxVideosToProcess || r == ShortVideos(items, withinLimit)
  {
    var short := ShortVideos(items, withinLimit);
    short[..if |short| < MaxVideosToProcess then |short| else MaxVideosToProcess]
  }

  /** `generate_bulk_ytd_summary`: one summariser call per item, for the first
      two items only, in order; the first failing call aborts. */
  function GenerateBulkSummary(items: seq<VideoItem>, summarise: VideoItem -> Result<string, string>): (r: Result<seq<string>, string>)
    ensures r.Ok? ==> |r.value| == (if |items| < ResultCap then |items| else ResultCap)
    ensures r.Ok? ==> forall i :: 0 <= i < |r.value| ==> summarise(items[i]) == Ok(r.value[i])
    ensures r.Err? <==> exists i :: 0 <= i < |items| && i < ResultCap && summarise(items[i]).Err?
    ensures r.Err? ==> exists i :: && 0 <= i < |items| && i < ResultCap && summarise(items[i]) == Err(r.error)
                                   && forall j :: 0 <= j < i ==> summarise(items[j]).Ok?
  {
    if |items| == 0 then Ok([])
    else if summarise(items[0]).Err? then Err(summarise(items[0]).error)
    else if |items| == 1 then Ok([summarise(items[0]).value])
    else if summarise(items[1]).Err? then Err(summarise(items[1]).error)
    else Ok([summarise(items[0]).value, summarise(items[1]).value])
  }

  /** `summarize_youtube_videos_in_bulk`. The items themselves, not their
      links, are what the summariser receives. */
  function SummarizeYoutubeVideosInBulk(
    items: seq<VideoItem>,
    withinLimit: (DurationValue, nat) -> bool,
    summarise: VideoItem -> Result<string, string>): (r: Result<seq<string>, VideoToolError>)
    ensures |items| == 0 ==> r == Ok([])
    ensures |items| > 0 && SomeLinkMissing(items) ==> r == Err(MissingLink)
    ensures |items| > 0 && !SomeLinkMissing(items) && |ShortVideos(items, withinLimit)| == 0 ==> r == Ok([])
    ensures r.Ok? ==> |r.value| <= ResultCap
    ensures r.Ok? && |items| > 0 ==>
              var forwarded := VideosToProcess(items, withinLimit);
              && |r.value| <= |forwarded|
              && forall i :: 0 <= i < |r.value| ==> summarise(forwarded[i]) == Ok(r.value[i])
    ensures |items| > 0 && !SomeLinkMissing(items) && |ShortVideos(items, withinLimit)| > 0 ==>
              var forwarded := VideosToProcess(items, withinLimit);
              && (r.Ok? ==> |r.value| == if |forwarded| < ResultCap then |forwarded| else ResultCap)
              && (r.Err? <==> exists i :: 0 <= i < |forwarded| && i < ResultCap && summarise(forwarded[i]).Err?)
              && (r.Err? ==> r.error.SummariserFailed?
                             && exists i :: && 0 <= i < |forwarded| && i < ResultCap
                                            && summarise(forwarded[i]) == Err(r.error.reason)
                                            && forall j :: 0 <= j < i ==> summarise(forwarded[j]).Ok?)
  {
    if |items| == 0 then Ok([])
    else if SomeLinkMissing(items) then Err(MissingLink)
    else
      var short := ShortVideos(items, withinLimit);
      if |short| == 0 then Ok([])
      else
        match GenerateBulkSummary(VideosToProcess(items, withinLimit), summarise)
        case Err(e) => Err(SummariserFailed(e))
        case Ok(summaries) =>
          Ok(summaries[..if |summaries| < ResultCap then |summaries| else ResultCap])
  }

  /** When no item lacks a link and the summariser succeeds on the short
      videos, the tool returns the summaries of the first two short videos,
      in input order. */
  lemma {:induction false} BulkSummariesOfFirstShortVideos(
    items: seq<VideoItem>,
    withinLimit: (DurationValue, nat) -> bool,
    summarise: VideoItem -> Result<string, string>)
    ensures var short := ShortVideos(items, withinLimit);
            var r := SummarizeYoutubeVideosInBulk(items, withinLimit, summarise);
            !SomeLinkMissing(items) && (forall i :: 0 <= i < |short| ==> summarise(short[i]).Ok?) ==>
              && r.Ok?
              && |r.value| == (if |short| < ResultCap then |short| else ResultCap)
              && forall i :: 0 <= i < |r.value| ==> summarise(short[i]) == Ok(r.value[i])
  {
    var short := ShortVideos(items, withinLimit);
    if |items| > 0 && !SomeLinkMissing(items) && |short| > 0 {
      if forall i :: 0 <= i < |short| ==> summarise(short[i]).Ok? {
        var forwarded := VideosToProcess(items, withinLimit);
        assert forall i :: 0 <= i < |forwarded| ==> forwarded[i] == short[i];
      } else {
        var i :| 0 <= i < |short| && summarise(short[i]).Err?;
        assert summarise(ShortVideos(items, withinLimit)[i]).Err?;
      }
    }
  }

  /** Every item the summariser sees is a YouTube video with a duration
      within the limit, taken in input order. */
  lemma ForwardedVideosQualify(items: seq<VideoItem>, withinLimit: (DurationValue, nat) -> bool)
    ensures var forwarded := VideosToProcess(items, withinLimit);
            forall i :: 0 <= i < |forwarded| ==>
              && HasDuration(forwarded[i])
              && Contains(forwarded[i].link.value, "youtube")
              && withinLimit(forwarded[i].duration.value, VideoMinutesLimit)
  {
    var short := ShortVideos(items, withinLimit);
    var forwarded := VideosToProcess(items, withinLimit);
    assert forall i :: 0 <= i < |forwarded| ==> forwarded[i] == short[i];
  }

  // ---------------------------------------------------------------------------
  // search_the_web_and_youtube
  // ---------------------------------------------------------------------------

  /** The tool's result object. `youtubeUrls` holds the page text record that
      the search returns next to the web results, not a list of videos. */
  datatype SearchToolResult = SearchToolResult(webUrls: seq<BasePayload>, youtubeUrls: PageContent)

  /** `search_the_web_and_youtube`: the two halves of the search result under
      the names `web_urls` and `youtube_urls`. */
  function SearchTheWebAndYoutube(html: string, page: SearchExecutor.ResultsPage, percentDecode: string -> string): (r: SearchToolResult)
    ensures r.youtubeUrls.images == []
    ensures forall i :: 0 <= i < |r.webUrls| ==> StartsWith(r.webUrls[i].url, "http") && !r.webUrls[i].isYoutube
    ensures forall i, j :: 0 <= i < j < |r.webUrls| ==> r.webUrls[i].url != r.webUrls[j].url
    ensures |html| == 0 ==> r == SearchToolResult([], PageContent("", []))
    ensures |html| > 0 && SearchExecutor.FirstMatch(page, SearchExecutor.ResultSelectors) == |SearchExecutor.ResultSelectors| ==>
              r == SearchToolResult([], PageContent("", []))
    ensures |html| > 0 && SearchExecutor.FirstMatch(page, SearchExecutor.ResultSelectors) < |SearchExecutor.ResultSelectors| ==>
              && r.webUrls == SearchExecutor.ExtractFromWebpage(page, percentDecode).0
              && r.youtubeUrls.fullText == Sanitizer.SanitizeText(page.text)
  {
    var (web, text) := SearchExecutor.ExtractSearchInformation(html, page, percentDecode);
    SearchToolResult(web, text)
  }

  /** The tool loses no web result but duplicates: when the page has a
      results container, every URL its blocks yield is among the web
      results, once, in the order of its first block. */
  lemma {:induction false} SearchToolKeepsEveryUrl(html: string, page: SearchExecutor.ResultsPage, percentDecode: string -> string)
    ensures var i := SearchExecutor.FirstMatch(page, SearchExecutor.ResultSelectors);
            |html| > 0 && i < |SearchExecutor.ResultSelectors| ==>
              var candidates := SearchExecutor.Candidates(SearchExecutor.Select(page, SearchExecutor.ResultSelectors[i]), percentDecode);
              var web := SearchTheWebAndYoutube(html, page, percentDecode).webUrls;
              && Dedup.KeySet(web, SearchExecutor.Url) == Dedup.KeySet(candidates, SearchExecutor.Url)
              && forall k, l :: 0 <= k < l < |web| ==>
                   Dedup.FirstIndex(candidates, SearchExecutor.Url, web[k].url) < Dedup.FirstIndex(candidates, SearchExecutor.Url, web[l].url)
  {
    if |html| > 0 && SearchExecutor.FirstMatch(page, SearchExecutor.ResultSelectors) < |SearchExecutor.ResultSelectors| {
      SearchExecutor.ExtractFromWebpageKeepsFirstPerUrl(page, percentDecode);
    }
  }
}
