/**
 * `fact_checker_agent/tool/youtube_metadata_executor.py`: the post-processing
 * of yt_dlp results. Each yt_dlp call is replaced by what it returned (or
 * that it raised); only the filtering, de-duplication and formatting done on
 * those results is modelled.
 */
module YoutubeMetadata {
  import opened Options
  import opened Strings
  import opened Payloads
  import Dedup

  /** A key of an info dict: absent, present with `None`, or present with a value. */
  datatype Field<T> = Missing | Null | Value(value: T)

  /** `d.get(key)`: absent and `None` read the same. */
  function Get<T>(f: Field<T>): Option<T> {
    if f.Value? then Some(f.value) else None
  }

  /** `d.get(key, default)`: only an absent key takes the default. */
  function GetDefault<T>(f: Field<T>, default: T): Option<T> {
    match f
    case Missing => Some(default)
    case Null => None
    case Value(v) => Some(v)
  }

  predicate NonEmpty(s: Option<string>) {
    s.Some? && |s.value| > 0
  }

  /** One element of a search result's `entries`. */
  datatype Entry =
    | NotADict
    | VideoEntry(duration: Field<int>, webpageUrl: Field<string>, url: Field<string>)

  /** What `extract_info` did for a search: raised, or returned a result
      whose `entries` key holds these entries (`None` when absent or `None`). */
  datatype SearchOutcome = SearchRaised | SearchResult(entries: Option<seq<Entry>>)

  /** The entries a search found, empty when there are none. */
  function EntriesOf(outcome: SearchOutcome): seq<Entry> {
    if outcome.SearchResult? && outcome.entries.Some? then outcome.entries.value else []
  }

  // ---------------------------------------------------------------------------
  // search_youtube_urls_by_duration
  // ---------------------------------------------------------------------------

  /** The search over-fetches five candidates per wanted result. */
  function SearchLimit(maxResults: int): int {
    maxResults * 5
  }

  /** The yt_dlp search pseudo-URL. */
  function SearchQuery(limit: int, query: string): string {
    "ytsearch" + ShowInt(limit) + ":" + query
  }

  /** The search pseudo-URL built for `maxResults` wanted videos asks for
      five times as many: the count between `ytsearch` and the first `:`
      reads back as `5 * maxResults`, and what follows that `:` is the query. */
  lemma {:induction false} SearchQueryCarriesLimit(maxResults: int, query: string)
    ensures var q := SearchQuery(SearchLimit(maxResults), query);
            && StartsWith(q, "ytsearch")
            && ParseInt(Split(q[8..], ':')[0]) == Some(5 * maxResults)
            && Join(Split(q[8..], ':')[1..], ':') == query
  {
    var limit := SearchLimit(maxResults);
    var q := SearchQuery(limit, query);
    var n := ShowInt(limit);
    assert q[..8] == "ytsearch";
    assert q[8..] == n + [':'] + query;
    assert ':' !in n by {
      if limit < 0 {
        assert n == "-" + ShowNat(-limit);
        assert forall i :: 1 <= i < |n| ==> n[i] == ShowNat(-limit)[i - 1];
      }
    }
    SplitCons(n, ':', query);
    ParseShowInt(limit);
    JoinSplit(query, ':');
  }

  /** The URL an entry contributes to the duration search: a dict entry with
      a non-zero duration at most the limit and a non-empty page URL. */
  function DurationCandidate(e: Entry, maxDuration: int): (r: Option<string>)
    ensures r.Some? <==>
              && e.VideoEntry?
              && Get(e.duration).Some? && Get(e.duration).value != 0 && Get(e.duration).value <= maxDuration
              && NonEmpty(Get(e.webpageUrl))
    ensures r.Some? ==> r == Get(e.webpageUrl)
  {
    match e
    case NotADict => None
    case VideoEntry(duration, webpageUrl, _) =>
      match Get(duration)
      case None => None
      case Some(d) =>
        if d != 0 && d <= maxDuration && NonEmpty(Get(webpageUrl)) then Get(webpageUrl) else None
  }

  /** The URLs of all qualifying entries, in entry order. */
  function KeptUrls(entries: seq<Entry>, maxDuration: int): (r: seq<string>)
    ensures |r| <= |entries|
    ensures forall k :: 0 <= k < |r| ==> |r[k]| > 0
    decreases |entries|
  {
    if |entries| == 0 then []
    else
      var rest := KeptUrls(entries[1..], maxDuration);
      match DurationCandidate(entries[0], maxDuration)
      case None => rest
      case Some(u) => [u] + rest
  }

  /** Qualifying URLs distribute over concatenation of entry lists. */
  lemma {:induction false} KeptUrlsAppend(a: seq<Entry>, b: seq<Entry>, maxDuration: int)
    ensures KeptUrls(a + b, maxDuration) == KeptUrls(a, maxDuration) + KeptUrls(b, maxDuration)
    decreases |a|
  {
    if |a| == 0 {
      assert a + b == b;
    } else {
      assert (a + b)[0] == a[0];
      assert (a + b)[1..] == a[1..] + b;
      KeptUrlsAppend(a[1..], b, maxDuration);
    }
  }

  /** A single entry contributes exactly its own qualifying URL. */
  lemma KeptUrlsSingleton(e: Entry, maxDuration: int)
    ensures KeptUrls([e], maxDuration) ==
              if DurationCandidate(e, maxDuration).Some? then [DurationCandidate(e, maxDuration).value] else []
  {
    assert [e][1..] == [];
  }

  /** The first `n` elements of `s`, all of them if there are fewer; none when
      `n` is not positive. */
  function Prefix<T>(s: seq<T>, n: int): (r: seq<T>)
    ensures |r| <= |s| && (n <= 0 ==> r == []) && (n >= |s| ==> r == s)
    ensures 0 <= n <= |s| ==> |r| == n
  {
    if n <= 0 then [] else if n >= |s| then s else s[..n]
  }

  /** `search_youtube_urls_by_duration`: the entries are scanned in order and
      the scan stops as soon as `maxResults` URLs are collected. A search that
      raised or found nothing gives `[]`. */
  method SearchYoutubeUrlsByDuration(outcome: SearchOutcome, maxResults: int, maxDuration: int) returns (urls: seq<string>)
    ensures urls == Prefix(KeptUrls(EntriesOf(outcome), maxDuration), maxResults)
    ensures |urls| <= if maxResults < 0 then 0 else maxResults
  {
    var entries := EntriesOf(outcome);
    if |entries| == 0 {
      return [];
    }
    urls := [];
    var i := 0;
    while i < |entries|
      invariant 0 <= i <= |entries|
      invariant urls == KeptUrls(entries[..i], maxDuration)
      invariant maxResults <= 0 ==> |urls| == 0
      invariant maxResults > 0 ==> |urls| <= maxResults
    {
      if |urls| >= maxResults {
        break;
      }
      var candidate := DurationCandidate(entries[i], maxDuration);
      KeptUrlsAppend(entries[..i], [entries[i]], maxDuration);
      KeptUrlsSingleton(entries[i], maxDuration);
      assert entries[..i + 1] == entries[..i] + [entries[i]];
      if candidate.Some? {
        urls := urls + [candidate.value];
      }
      i := i + 1;
    }
    assert entries == entries[..i] + entries[i..];
    KeptUrlsAppend(entries[..i], entries[i..], maxDuration);
  }

  // ---------------------------------------------------------------------------
  // search_youtube_by_query
  // ---------------------------------------------------------------------------

  /** The non-empty `url` values of the entries, in order. */
  function EntryUrls(entries: seq<Entry>): (r: seq<string>)
    requires forall k :: 0 <= k < |entries| ==> entries[k].VideoEntry?
    ensures |r| <= |entries|
    ensures forall k :: 0 <= k < |r| ==> |r[k]| > 0
    decreases |entries|
  {
    if |entries| == 0 then []
    else
      var rest := EntryUrls(entries[1..]);
      if NonEmpty(Get(entries[0].url)) then [Get(entries[0].url).value] + rest else rest
  }

  function Identity(s: string): string {
    s
  }

  /** `search_youtube_by_query`: the non-empty URLs, each kept at its first
      occurrence. Reading `url` from an entry that is not a dict raises, and
      any exception gives `[]`. */
  function SearchYoutubeByQuery(outcome: SearchOutcome): (r: seq<string>)
    ensures outcome.SearchRaised? || |EntriesOf(outcome)| == 0 ==> r == []
    ensures (exists k :: 0 <= k < |EntriesOf(outcome)| && EntriesOf(outcome)[k].NotADict?) ==> r == []
    ensures forall i, j :: 0 <= i < j < |r| ==> r[i] != r[j]
    ensures forall k :: 0 <= k < |r| ==> |r[k]| > 0
  {
    var entries := EntriesOf(outcome);
    if |entries| == 0 then []
    else if exists k :: 0 <= k < |entries| && entries[k].NotADict? then []
    else
      var r := Dedup.FirstByKey(EntryUrls(entries), Identity);
      Dedup.FirstByKeyCharacterised(EntryUrls(entries), Identity);
      assert forall k :: 0 <= k < |r| ==> |r[k]| > 0 by {
        forall k | 0 <= k < |r|
          ensures |r[k]| > 0
        {
          assert Dedup.FirstWithKey(EntryUrls(entries), Identity, r[k]) == Some(r[k]);
        }
      }
      r
  }

  /** Nothing but duplicates is dropped: every non-empty URL of a result of
      dict entries appears, and only those, in the order of their first
      occurrences. */
  lemma {:induction false} SearchYoutubeByQueryKeepsEveryUrl(entries: seq<Entry>)
    requires |entries| > 0
    requires forall k :: 0 <= k < |entries| ==> entries[k].VideoEntry?
    ensures var r := SearchYoutubeByQuery(SearchResult(Some(entries)));
            && Dedup.KeySet(r, Identity) == Dedup.KeySet(EntryUrls(entries), Identity)
            && forall i, j :: 0 <= i < j < |r| ==>
                 Dedup.FirstIndex(EntryUrls(entries), Identity, r[i]) < Dedup.FirstIndex(EntryUrls(entries), Identity, r[j])
  {
    Dedup.FirstByKeyCharacterised(EntryUrls(entries), Identity);
  }

  // ---------------------------------------------------------------------------
  // get_video_metadata / get_youtube_multiple_metadata
  // ---------------------------------------------------------------------------

  /** The info dict of one video, reduced to the keys read here. `isLive` and
      `drm` are the truth values of those keys. */
  datatype VideoInfo = VideoInfo(
    isLive: bool,
    drm: bool,
    uploadDate: Field<string>,
    title: Field<string>,
    description: Field<string>,
    webpageUrl: Field<string>,
    uploader: Field<string>,
    duration: Field<int>,
    likeCount: Field<int>,
    viewCount: Field<int>)

  /** What `extract_info` did for one video URL. */
  datatype VideoLookup = LookupRaised | LookupNotADict | Found(info: VideoInfo)

  /** `YYYYMMDD` as `YYYY-MM-DD`; any other upload date gives `None`. */
  function FormatDate(uploadDate: Option<string>): (r: Option<string>)
    ensures r.Some? <==> uploadDate.Some? && |uploadDate.value| == 8
    ensures r.Some? ==> |r.value| == 10 && r.value[4] == '-' && r.value[7] == '-'
  {
    if uploadDate.Some? && |uploadDate.value| == 8 then
      var d := uploadDate.value;
      Some(d[..4] + "-" + d[4..6] + "-" + d[6..])
    else None
  }

  /** Removing the two dashes gives back the original date. */
  lemma FormatDateRoundTrip(d: string)
    requires |d| == 8
    ensures var f := FormatDate(Some(d)).value;
            f[..4] + f[5..7] + f[8..] == d
  {
    var f := FormatDate(Some(d)).value;
    assert f[..4] == d[..4];
    assert f[5..7] == d[4..6];
    assert f[8..] == d[6..];
    assert d == d[..4] + d[4..6] + d[6..];
  }

  /** `d.get(key, 0) or 0`: a count that is absent, `None` or zero reads as 0. */
  function Count(f: Field<int>): (n: int)
    ensures f.Value? ==> n == f.value
    ensures !f.Value? ==> n == 0
  {
    if f.Value? && f.value != 0 then f.value else 0
  }

  /** `get_video_metadata`: no payload when the lookup raised, gave something
      other than a dict, or found a live or DRM-protected video. */
  function GetVideoMetadata(lookup: VideoLookup): (r: Option<YoutubePayload>)
    ensures r.Some? <==> lookup.Found? && !lookup.info.isLive && !lookup.info.drm
    ensures r.Some? ==>
              var info := lookup.info;
              && r.value.title == Get(info.title)
              && r.value.summary == Get(info.description)
              && r.value.url == Get(info.webpageUrl)
              && r.value.details.channel == Get(info.uploader)
              && r.value.details.airTime == FormatDate(Get(info.uploadDate))
              && r.value.details.publishedAt == r.value.details.airTime
              && r.value.details.durationSeconds == GetDefault(info.duration, 0)
              && r.value.likeCount == Count(info.likeCount)
              && r.value.viewCount == Count(info.viewCount)
              && r.value.resultRank == 0
              && r.value.isYoutube
  {
    match lookup
    case LookupRaised => None
    case LookupNotADict => None
    case Found(info) =>
      if info.isLive || info.drm then None
      else
        var date := FormatDate(Get(info.uploadDate));
        Some(YoutubePayload(
          Get(info.title),
          Get(info.description),
          Get(info.webpageUrl),
          0,
          VideoDetails(Get(info.uploader), date, GetDefault(info.duration, 0), date),
          Count(info.likeCount),
          Count(info.viewCount),
          true))
  }

  /** `get_youtube_multiple_metadata`: the payloads of the URLs, in URL order,
      with the failed lookups dropped. */
  function GetYoutubeMultipleMetadata(urls: seq<string>, lookup: string -> VideoLookup): (r: seq<YoutubePayload>)
    ensures |urls| == 0 ==> r == []
    ensures |r| <= |urls|
    ensures forall k :: 0 <= k < |r| ==> r[k].isYoutube && r[k].resultRank == 0
    decreases |urls|
  {
    if |urls| == 0 then []
    else
      var rest := GetYoutubeMultipleMetadata(urls[1..], lookup);
      match GetVideoMetadata(lookup(urls[0]))
      case None => rest
      case Some(p) => [p] + rest
  }

  /** The results of a concatenation are the concatenation of the results:
      order follows the input. */
  lemma {:induction false} MultipleMetadataAppend(a: seq<string>, b: seq<string>, lookup: string -> VideoLookup)
    ensures GetYoutubeMultipleMetadata(a + b, lookup) == GetYoutubeMultipleMetadata(a, lookup) + GetYoutubeMultipleMetadata(b, lookup)
    decreases |a|
  {
    if |a| == 0 {
      assert a + b == b;
    } else {
      assert (a + b)[0] == a[0];
      assert (a + b)[1..] == a[1..] + b;
      MultipleMetadataAppend(a[1..], b, lookup);
    }
  }

  /** One URL gives its payload, or nothing when its lookup yields none. */
  lemma MultipleMetadataSingleton(url: string, lookup: string -> VideoLookup)
    ensures GetYoutubeMultipleMetadata([url], lookup) ==
              if GetVideoMetadata(lookup(url)).Some? then [GetVideoMetadata(lookup(url)).value] else []
  {
    assert [url][1..] == [];
  }
}
