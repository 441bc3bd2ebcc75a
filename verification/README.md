# Fact checker: a Dafny model of the pipeline's deterministic core

The system checks a claim by chaining four language-model agents:
1. a query processor rewrites the claim as a search query;
2. an information gatherer runs a Google search and turns the result page into web links;
3. a parallel stage summarises the linked web pages and YouTube videos;
4. a fact ranker writes a JSON verdict with a credibility score.

A FastAPI service runs the pipeline on a stored session and returns the verdict. It also lists a user's sessions and shows a session's chat history.

This project models the deterministic code around the language models:

- **Options** (`options.dfy`): the `Option` and `Result` wrappers.
- **Strings** (`strings.dfy`): character classes, `strip`, integer parsing and printing, and splitting on a separator.
- **Payloads** (`payloads.dfy`): the payload records passed between the tools.
- **Sanitizer** (`sanitizer.dfy`): `sanitize_text` and `parse_html_content`. The HTML tree is replaced by what the parser sees of it: anchors, images and visible text.
- **Json** and **FactCheckResultModel** (`json.dfy`, `factcheck_result.dfy`): a JSON value, and pydantic's validation of the `FactCheckResult` schema.
- **DraftValidator** (`draft_validator.dfy`): the three consistency rules of `validate_fact_check_draft`.
- **UrlExecutor** (`url_executor.dfy`): the per-worker Selenium driver pool and page scraping. Launch, load and quit outcomes are inputs.
- **Dedup** (`dedup.dfy`): the "first element per key, in order" filter. The search executor's `seen_urls` set and `dict.fromkeys` both use it.
- **SearchExecutor** (`search_executor.dfy`): picking the result container, unwrapping `/url?q=` redirects and building the result list.
- **YoutubeMetadata** (`youtube_metadata.dfy`): the yt_dlp searches and metadata mapping. What yt_dlp returned is an input.
- **ToolsInterface** (`tools_interface.dfy`): the three agent tools and the bulk video summariser. The model call is a parameter.
- **Pipeline** (`pipeline.dfy`): the agents, their models, tools, schema and output keys as data. It also gives an execution semantics in which each agent writes its output key into the session state.
- **SessionDb** (`session_db.dfy`): a new session's initial state, and how stored messages become a chat history.
- **Api** (`api.dfy`): the three HTTP endpoints. The agents' event stream, the session store and the JSON decoder are inputs.

## Model

| member | source | states |
|---|---|---|
| Sanitizer.SanitizeText | utils.py:9-17 | Empty text gives "". The result is never longer than the input. It has no control characters, every whitespace character in it is a plain space, and it neither starts nor ends with whitespace. Text with no whitespace and no control characters is returned unchanged. |
| Sanitizer.SanitizeKeepsVisibleText | utils.py:13-17 | The sanitiser keeps exactly the visible characters of the input, in their original order: its non-whitespace characters are the input's non-whitespace, non-control characters. |
| Sanitizer.SanitizeNotIdempotent | utils.py:14-16 | Whitespace runs are collapsed before control characters are deleted. So "a \x01 b" sanitises to "a  b" (two spaces), and sanitising that again gives "a b". Hence some text changes when sanitised twice: the function is not idempotent. |
| Sanitizer.ExtractLinks | utils.py:45-49 | Every kept link has an https URL and is not a YouTube payload. There is never more than one link per anchor. |
| Sanitizer.ExtractLinksSingleton | utils.py:46-49 | One anchor yields a link exactly when its href starts with "https". That link carries the href and the sanitised anchor text. |
| Sanitizer.ExtractLinksAppend | utils.py:45-49 | Links are extracted anchor by anchor, in document order. |
| Sanitizer.ImageOf | utils.py:53-61 | An image is kept exactly when its height attribute parses as an integer greater than 100. The kept image carries the src and the parsed height. |
| Sanitizer.ImageHeightThreshold | utils.py:58-59 | A decimal height h keeps the image, with height h, exactly when h > 100. |
| Sanitizer.ImageUnparsableHeightSkipped | utils.py:60-61 | A height that is not an integer drops the image instead of failing. |
| Sanitizer.ParseHtmlContent | utils.py:20-73 | The links are exactly those the anchors yield one by one (an https href gives a link), in document order. The images are exactly those with a height above 100, in document order. So every link is https and every image is taller than 100. The full text is the sanitised visible text: no control characters, and every visible character of the page kept in order. |
| Strings.ParseShowInt | utils.py:58 | Python's `int()` parses back every integer written in decimal, which is the partner of the height rule. |
| FactCheckResultModel.Validate | fact_checker_agent/models/agent_output_models.py:6-25 | A document is accepted exactly when it is an object with the five fields at the right types: a verdict among the four labels, and a credibility score between 0 and 100. An accepted record is valid and carries the document's fields. |
| FactCheckResultModel.ValidateEncode | fact_checker_agent/models/agent_output_models.py:6-25 | Encoding a record and validating it gives the record back exactly when the record is valid, and gives nothing otherwise. |
| FactCheckResultModel.MissingFieldRejected | fact_checker_agent/models/agent_output_models.py:8-25 | Every field is required: a document missing any of the five is rejected. |
| FactCheckResultModel.VerdictLabelBijection | fact_checker_agent/models/agent_output_models.py:8 | Parsing a verdict label and printing a verdict are inverse bijections on the four labels. |
| Json.StringArrayRoundTrip | fact_checker_agent/models/agent_output_models.py:17 | A list of strings written as a JSON array reads back as the same list. |
| DraftValidator.ValidateDraft | fact_checker_agent/tools.py:17-48 | Unparsable JSON fails with the JSON message, and a wrongly typed field fails with the unexpected-error message. Otherwise rules 1, 2 and 3 are tried in order and the first that fires decides the failure. A draft passes exactly when its message is the consistency message. |
| DraftValidator.PassIffConsistent | fact_checker_agent/tools.py:23-44 | A draft passes exactly when it is well typed and no rule fires: a score above 85 needs a strong verdict, a score below 40 forbids one, and a mention of "conflict" caps the score at 65. |
| DraftValidator.Rules1And2Exclusive | fact_checker_agent/tools.py:24-35 | Rules 1 and 2 never both fire on the same draft. |
| DraftValidator.EmptyObjectPasses | fact_checker_agent/tools.py:19-21 | An empty object passes, because the defaults (empty verdict, score 50, empty explanation) fire no rule. |
| DraftValidator.ConflictIgnoresCase | fact_checker_agent/tools.py:21 | The explanation is lower-cased first, so "CONFLICT" triggers rule 3. |
| DraftValidator.ValidRecordIsWellTyped | fact_checker_agent/tools.py:18-21 | The JSON of any fact-check record is well typed for the validator, so it never meets the unexpected-error path. |
| UrlExecutor.GetPooledDriver | fact_checker_agent/tool/url_executor.py:13-26 | A worker holding a driver gets it back with the pool unchanged. An empty slot launches a driver and stores it in that worker's slot only. A failed launch is an error. |
| UrlExecutor.ExtractPageInfo | fact_checker_agent/tool/url_executor.py:37-56 | The payload is for the requested URL and is not a YouTube payload. A loaded page gives its title and parsed full text. A failed load gives the error title and a summary naming the URL and the reason, and the worker's driver is quit and its slot cleared. Other workers' slots are untouched. |
| UrlExecutor.SlotLifecycle | fact_checker_agent/tool/url_executor.py:14-15 | After a successful fetch, the next task on the same worker reuses the driver. After a failed fetch, the next task launches a fresh one. |
| UrlExecutor.PagePayload | fact_checker_agent/tool/url_executor.py:39-56 | A visit's payload is for the visited URL, is not a YouTube payload and has no content summary. A loaded page gives its title and sanitised visible text. A failed visit gives the error title and a summary naming the URL and the reason. |
| UrlExecutor.RunTasks | fact_checker_agent/tool/url_executor.py:37-56 | Running tasks in order gives one payload per URL, each the visit of that URL. A well-formed pool stays well formed, and when every launch and every quit succeeds no task raises. |
| UrlExecutor.ExtractExternalLinksInfo | fact_checker_agent/tool/url_executor.py:59-65 | One payload per input, in input order. Each is the visit of that input's URL, starting from an empty pool. The call succeeds whenever every launch and every quit succeeds. |
| UrlExecutor.ScheduleIrrelevant | fact_checker_agent/tool/url_executor.py:61-64 | Which of the 8 workers runs which URL does not change the gathered payloads whenever both schedules complete, with no driver failing to launch or to quit. |
| UrlExecutor.CloseAllDrivers | fact_checker_agent/tool/url_executor.py:28-35 | Every pooled driver gets one quit attempt, in pool order, and a failing quit is reported without stopping the others. |
| UrlExecutor.CloseAllDriversAppend | fact_checker_agent/tool/url_executor.py:28-35 | Closing two pools in turn is closing them together: the attempts for the second pool do not depend on what happened to the first, failures included. |
| Dedup.FirstByKeyCharacterised | fact_checker_agent/tool/youtube_metadata_executor.py:103-105 | Each kept element is the first in the input with its key, and the kept elements follow first-occurrence order. No key repeats, and every key in the input is kept. |
| SearchExecutor.FirstMatch | fact_checker_agent/tool/search_executor.py:125-133 | The chosen selector is the first of the four that matches anything. All earlier ones match nothing, and "none" means none matched. |
| SearchExecutor.UnwrapRedirect | fact_checker_agent/tool/search_executor.py:147-148 | A redirect link "/url?q=T&rest", with a plain target T, unwraps to T. |
| SearchExecutor.Candidate | fact_checker_agent/tool/search_executor.py:136-158 | A result block is dropped exactly when it lacks a title or href, or its unwrapped URL is empty or not http. A kept block carries the sanitised title and snippet as both its short description and its summary. |
| SearchExecutor.CandidatesAppend | fact_checker_agent/tool/search_executor.py:135-158 | Result blocks are examined one by one, in page order. |
| SearchExecutor.ExtractFromWebpage | fact_checker_agent/tool/search_executor.py:116-161 | No matching container gives no results and empty text. Otherwise the results are the candidates of the first matching container, keeping only the first with each URL. Every result is http and not YouTube, no URL repeats, and the text is the sanitised page text. |
| SearchExecutor.ExtractFromWebpageKeepsFirstPerUrl | fact_checker_agent/tool/search_executor.py:150-153 | The `seen_urls` filter keeps, for each URL, the first result block that produced it, in page order, and drops no URL. |
| SearchExecutor.ExtractSearchInformation | fact_checker_agent/tool/search_executor.py:25-35 | Empty HTML gives no results and empty page content. Otherwise it gives the results and text of the result page. The page content never has images. |
| YoutubeMetadata.SearchQueryCarriesLimit | fact_checker_agent/tool/youtube_metadata_executor.py:29-30 | The yt_dlp query for N wanted videos asks for five times as many: "ytsearchM:q" splits at its first ':' into M, which reads back as 5·N, and the original query q, whatever q contains. |
| YoutubeMetadata.DurationCandidate | fact_checker_agent/tool/youtube_metadata_executor.py:66-74 | An entry contributes a URL exactly when it is a dict with a non-zero duration no larger than the maximum and a non-empty webpage URL. |
| YoutubeMetadata.KeptUrlsAppend | fact_checker_agent/tool/youtube_metadata_executor.py:60-74 | Entries are filtered one by one, in result order. |
| YoutubeMetadata.SearchYoutubeUrlsByDuration | fact_checker_agent/tool/youtube_metadata_executor.py:50-80 | The loop returns exactly the first `max_results` qualifying URLs, in result order. A raised search or no entries gives none. |
| YoutubeMetadata.SearchYoutubeByQuery | fact_checker_agent/tool/youtube_metadata_executor.py:97-109 | A raised search, no entries, or any entry that is not a dict gives an empty list. Otherwise no URL is repeated and none is empty. |
| YoutubeMetadata.SearchYoutubeByQueryKeepsEveryUrl | fact_checker_agent/tool/youtube_metadata_executor.py:103-105 | Over dict entries, the result is the first occurrence of each non-empty URL, in order. |
| YoutubeMetadata.FormatDateRoundTrip | fact_checker_agent/tool/youtube_metadata_executor.py:127-132 | An 8-character upload date becomes "YYYY-MM-DD", and removing the two dashes gives the original date back. |
| YoutubeMetadata.GetVideoMetadata | fact_checker_agent/tool/youtube_metadata_executor.py:112-150 | Metadata exists exactly when the lookup found a dict that is neither live nor DRM-protected. It is a YouTube payload with rank 0, its counts default to 0, and its air time and publication date are the same formatted date. |
| YoutubeMetadata.GetYoutubeMultipleMetadata | fact_checker_agent/tool/youtube_metadata_executor.py:153-162 | No URLs give no payloads. At most one payload comes from each URL, and every payload is a YouTube payload of rank 0. |
| YoutubeMetadata.MultipleMetadataAppend | fact_checker_agent/tool/youtube_metadata_executor.py:160-162 | Payloads come from the URLs one by one, in input order. Failed lookups are dropped. |
| ToolsInterface.TruncateSummary | fact_checker_agent/tool/tools_interface.py:30-34 | Only the content summary can change. A summary over 4500 characters becomes its first 1500 characters plus "...", and every other payload is returned as is. |
| ToolsInterface.TruncateIdempotent | fact_checker_agent/tool/tools_interface.py:30-34 | Truncating twice is the same as truncating once. |
| ToolsInterface.SummarizeWebPages | fact_checker_agent/tool/tools_interface.py:13-36 | No URLs give the "No web pages to summarize." message with no sources. Otherwise the tool succeeds exactly when scraping succeeds, and returns the first two scraped pages, truncated. |
| ToolsInterface.ScrapedPagesAreNotTruncated | fact_checker_agent/tool/tools_interface.py:30-36 | The truncation never fires on freshly scraped pages, because it reads `content_summary` while the scraper fills `summary`. So the tool returns the first scraped pages unchanged. |
| ToolsInterface.GenerateBulkSummary | fact_checker_agent/tool/llm_calls.py:11-59 | Only the first two items are summarised, in order. The call fails exactly when one of those two summariser calls fails, and then with the error of the first call that failed. |
| ToolsInterface.VideosToProcess | fact_checker_agent/tool/tools_interface.py:47-54 | The forwarded videos are the first five short YouTube videos, in order. |
| ToolsInterface.ForwardedVideosQualify | fact_checker_agent/tool/tools_interface.py:47-48 | Every forwarded item has a truthy duration (non-empty text or a non-zero number), a link containing "youtube", and a duration within the 6-minute limit. |
| ToolsInterface.SummarizeYoutubeVideosInBulk | fact_checker_agent/tool/tools_interface.py:39-62 | No items give none. An item with a duration but no link fails. No short video gives none. Otherwise a success holds one summary of each of the first min(2, forwarded) forwarded videos, in order, and the tool fails, with the summariser's error, exactly when one of those summariser calls fails. |
| ToolsInterface.BulkSummariesOfFirstShortVideos | fact_checker_agent/tool/tools_interface.py:47-62 | When no item lacks a link and the summariser succeeds on every short video, the result is the summaries of the first two short YouTube videos of the input, in input order. |
| ToolsInterface.SearchTheWebAndYoutube | fact_checker_agent/tool/tools_interface.py:65-83 | The web results are http, not YouTube, and have distinct URLs. An empty page, or one with no results container, gives empty results. Otherwise the web results are those of the first matching container, and the "YouTube" half is the page's sanitised text with no images. |
| ToolsInterface.SearchToolKeepsEveryUrl | fact_checker_agent/tool/tools_interface.py:65-83 | Only duplicates are dropped: every URL the result blocks yield is among the web results, once, in the order of its first block. |
| Pipeline.StageOrderAndKeys | fact_checker_agent/agent.py:144-153 | The root agent runs the query processor, the gatherer, the parallel summariser and the fact ranker, in that order. Together they write the five state keys, in order. |
| Pipeline.OutputKeysDistinct | fact_checker_agent/agent.py:24-140 | No two agents write the same state key. |
| Pipeline.PipelineReadsWrittenEarlier | fact_checker_agent/agent.py:38-136 | Every key an agent's instruction reads is written by an earlier stage. |
| Pipeline.ReadsAvailable | fact_checker_agent/agent.py:38-136 | Running the stages before an agent, from any state, leaves every key that agent reads present. |
| Pipeline.WebAnalysisNeverRead | fact_checker_agent/agent.py:96-141 | "web_analysis" is written, but no agent's instruction reads it: the fact ranker reads only the search query and the video analysis. |
| Pipeline.SchemaAndTools | fact_checker_agent/agent.py:7-141 | Only the fact ranker has an output schema. The gatherer, web summariser and video summariser each hold exactly their one tool, and the query processor and the fact ranker hold none. |
| Pipeline.RunKeys | fact_checker_agent/agent.py:144-153 | The state after a run holds exactly the keys it started with plus the stages' output keys. |
| Pipeline.BranchMergeCommutes | fact_checker_agent/agent.py:87-94 | Two parallel branches with different output keys give the same state in either order. |
| Pipeline.ParallelSummarizerCommutes | fact_checker_agent/agent.py:87-94 | The parallel summariser's two branches give the same state in either order. |
| SessionDb.InitialStateCoversPipeline | fact_checker_agent/db/database.py:36-48 | A new session's state names the user and has an empty value under exactly the keys the pipeline writes. |
| SessionDb.SessionHistory | fact_checker_agent/db/database.py:51-60 | No session, or no messages, gives an empty history. The history is empty exactly when no message has a text-bearing first part. |
| SessionDb.HistoryOfAppend | fact_checker_agent/db/database.py:56-59 | The history follows message order. |
| SessionDb.HistoryOfSingleton | fact_checker_agent/db/database.py:57-59 | A message is shown exactly when its first part has a text attribute. Its role is "user" or "assistant", and its content is that text. |
| Api.QueryAgent | main.py:84-146 | A failed session setup is a 500. With the session ready, the outcome is that of the event loop: the first raise or final FactRankerAgent event decides it, and every earlier event is skipped. Every error is a 500, and an answer echoes the request's session id. |
| Api.ConsumeStream | main.py:99-142 | The first step that is a raise or a final FactRankerAgent event decides the outcome: a raise is a 500 with its reason, and an event gives that event's answer or error. A stream with no such step has no final response (500). |
| Api.ConsumeStreamOk | main.py:113-131 | An answer carries the fields of a valid fact-check record decoded from a final FactRankerAgent event. |
| Api.SkipsUndecisiveEvent | main.py:113 | Events that are not a final response from FactRankerAgent are skipped. |
| Api.FirstDecidingEventSettles | main.py:99-139 | The first final FactRankerAgent event decides the response, and later events are never read. |
| Api.NoDecidingEvent | main.py:141-142 | A stream with no final FactRankerAgent event gives the 500 "finished without a valid final response". |
| Api.ValidFinalEventAnswers | main.py:118-131 | A final event whose text decodes to a valid record answers with that record's verdict, score, summary, explanation and sources. |
| Api.ListPastSessions | main.py:156-168 | A failed listing is a 500. A listing succeeds exactly when every session with a creation time is accepted by the response model; then it lists exactly those sessions, in listing order. A session the response model rejects makes the response 500. |
| Api.WithCreateTimeMembers | main.py:163 | A session is kept exactly when it is listed and has a creation time. |
| Api.WithCreateTimeAppend | main.py:163 | Sessions are filtered one by one, in order. |
| Api.LoadPastSessionChatsAsWritten | main.py:178-192 | As written, every error is a 500. A session with a non-empty history is answered with exactly that history for the requested session, and every answer is such a one. |
| Api.MissingSessionGets500 | main.py:183-192 | As written, a missing session gets a 500, not the 404 the endpoint documents. |
| Api.LoadPastSessionChats | main.py:178-192 | The intended endpoint answers with 404 or 500 only. A session with a non-empty history is answered with exactly that history for the requested session, and every answer is such a one. |
| Api.NotFoundIffNothingToShow | main.py:176-189 | With the intended behaviour, the response is a 404 exactly when the history is empty, and a session with a shown message is answered with its full history, as the code as written answers it. |

## Left out

- Browsers and networks are left out: Selenium, the Google search (`run_search`, `get_driver`), page loading and yt_dlp. What they return is an input to the model: a fetch outcome, a results page, or a yt_dlp result.
- HTML parsing (BeautifulSoup, lxml, CSS selectors) is not modelled. A page is given as its anchors, images, result containers and visible text.
- The URL parser is only partly modelled. `urlparse` is reduced to removing tab, CR and LF and taking the query before any fragment. Percent-decoding is a parameter that is used only when a value contains '%'.
- The language models are not modelled, whether reached through ADK or through `genai` in `llm_calls.py`. Each agent's output is a parameter, and so is each video summary. Prompts are kept only as the state keys they read.
- The ADK runtime is reduced to its effect on the session state: each agent writes its output key. Events, the runner, tool-calling and the `exit_loop` tool are not modelled.
- Concurrency is not modelled: thread pools, `asyncio.gather` and parallel agents. Results are gathered in input order, as `gather` and `executor.map` return them.
- The session database, the Postgres connection, FastAPI routing and CORS, logging, the `app.py` user interface, `logger.py` and the `extract_*` wrappers in `utils.py` are left out.
- `is_duration_within_limit` (imported from `utils.py`) and `database.ensure_session_exists_async` are called but not defined in the source. They are parameters: the duration test, and a flag for whether the session is ready.
- `SessionHistoryResponse` is imported from `agent_output_models.py` but not defined there. It is modelled as a session id plus a history.
- `search_helper_models.py` is not part of this model. `BasePayload`, `ImagePayload`, `PageContent` and `YoutubePayload` are reduced to records with the fields the code reads or writes.
- Text is simplified:
  - `str.isspace` is modelled by the ASCII whitespace, U+001C..U+001F, U+0085, U+00A0 and the main Unicode spaces.
  - `.lower()` is ASCII lower-casing.
  - Integer parsing (`int()` on an image height) accepts ASCII digits only. Python also accepts other Unicode decimal digits, such as full-width ones, so an image whose height is written in them is dropped by the model but kept by the source.
  - JSON numbers are integers, and a video's `duration` is text or an integer.
  - pydantic's lax coercions (a numeric string for an integer, say) are not modelled.
- Some type mismatches are kept as written:
  - `search_the_web_and_youtube` returns the search page's text as `youtube_urls`.
  - `summarize_youtube_videos_in_bulk` hands whole items, not URL strings, to the summariser.
  - `summarize_web_pages` looks for `content_summary` on payloads that the scraper fills under `summary`, so scraped pages are never truncated. This is stated by ToolsInterface.ScrapedPagesAreNotTruncated.
- Retries and placeholders described for the system are not modelled, because the code has neither. A failed video summary fails the whole bulk call, and a failed scrape cannot be retried. The model follows the code.
- UrlExecutor.ExtractExternalLinksInfo: only the returned payloads are modelled. The drivers left in worker threads after the call are not.
- YoutubeMetadata.SearchYoutubeByQuery: an entry that is not a dict makes `entry.get` raise, which the source catches, so the whole result becomes empty. Entries are otherwise given as what `extract_flat` returns.

## Findings

| source | as written | input that shows it | evidently intended | confidence | as-written member | corrected member |
|---|---|---|---|---|---|---|
| main.py:185-192 | The 404 for a missing session or empty history is raised inside the `try`, whose `except Exception` turns it into a 500. | A session id that does not exist, or a session with no text messages. | A 404 "Session not found or history is empty.", as the endpoint's declared responses say. | not executed | Api.LoadPastSessionChatsAsWritten (Api.MissingSessionGets500) | Api.LoadPastSessionChats (Api.NotFoundIffNothingToShow) |
