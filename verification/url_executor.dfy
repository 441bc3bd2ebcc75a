/**
 * `fact_checker_agent/tool/url_executor.py`: the page scraper. Each worker
 * thread owns one browser slot that is empty or holds a driver; the driver is
 * created lazily, reused after a successful visit and discarded after a
 * failed one. Browser start-up, page loads and `quit()` are replaced by their
 * outcomes, given as input data; interleavings between workers are not
 * modelled, only each worker's own sequence of tasks.
 */
module UrlExecutor {
  import opened Options
  import opened Strings
  import opened Payloads
  import Sanitizer

  /** The size of the thread pool of `extract_external_links_info`. */
  const FetchWorkers: nat := 8

  /** A browser driver; `serial` tells apart drivers created at different times. */
  datatype Driver = Driver(serial: nat)

  /** One worker's `thread_local.driver`. */
  datatype Slot = Empty | Holding(driver: Driver)

  /** The slots of all workers, and how many drivers have been created so far. */
  datatype Pool = Pool(slots: map<nat, Slot>, created: nat)

  /** What visiting a page produced: its title and parsed content, or the
      exception raised while loading or parsing it. */
  datatype FetchOutcome = Loaded(title: string, page: Sanitizer.ParsedPage) | FetchFailed(reason: string)

  /** Everything the environment decides for one task: which worker runs it,
      whether a new browser would start, how the visit goes, and whether
      `quit()` on a failed driver succeeds. */
  datatype Task = Task(worker: nat, launchOk: bool, outcome: FetchOutcome, quitOk: bool)

  /** The exceptions that escape the scraper. */
  datatype ScrapeError = LaunchFailed(worker: nat) | QuitFailed(url: string)

  function SlotOf(pool: Pool, w: nat): Slot {
    if w in pool.slots then pool.slots[w] else Empty
  }

  /** A pool in which every live driver was created earlier by the pool. */
  predicate WellFormed(pool: Pool) {
    forall w :: w in pool.slots && pool.slots[w].Holding? ==> pool.slots[w].driver.serial < pool.created
  }

  /** `get_pooled_driver`: the worker's driver, created only when its slot is empty. */
  function GetPooledDriver(pool: Pool, w: nat, launchOk: bool): (r: Result<(Driver, Pool), ScrapeError>)
    ensures SlotOf(pool, w).Holding? ==> r == Ok((SlotOf(pool, w).driver, pool))
    ensures SlotOf(pool, w).Empty? && !launchOk ==> r == Err(LaunchFailed(w))
    ensures SlotOf(pool, w).Empty? && launchOk ==>
              && r.Ok?
              && r.value.0 == Driver(pool.created)
              && r.value.1 == Pool(pool.slots[w := Holding(Driver(pool.created))], pool.created + 1)
    ensures r.Ok? ==> SlotOf(r.value.1, w) == Holding(r.value.0)
    ensures WellFormed(pool) && r.Ok? ==> WellFormed(r.value.1)
  {
    match SlotOf(pool, w)
    case Holding(d) => Ok((d, pool))
    case Empty =>
      if launchOk then
        var d := Driver(pool.created);
        Ok((d, Pool(pool.slots[w := Holding(d)], pool.created + 1)))
      else Err(LaunchFailed(w))
  }

  const ErrorTitle: string := "Error visiting URL"

  /** The summary recorded for a page that could not be visited. */
  function ErrorSummary(url: string, reason: string): string {
    "Could not extract content from " + url + ". Reason: " + reason
  }

  /** The payload a visit produces, independent of which driver made it. */
  function PagePayload(url: string, outcome: FetchOutcome): (r: BasePayload)
    ensures r.url == url && !r.isYoutube && r.contentSummary.None?
    ensures outcome.FetchFailed? ==> r.title == ErrorTitle && r.summary == ErrorSummary(url, outcome.reason)
    ensures outcome.Loaded? ==> r.title == outcome.title && r.summary == Sanitizer.SanitizeText(outcome.page.visibleText)
  {
    match outcome
    case Loaded(title, page) => BasePayload(url, title, "", Sanitizer.ParseHtmlContent(page).fullText, None, false)
    case FetchFailed(reason) => BasePayload(url, ErrorTitle, "", ErrorSummary(url, reason), None, false)
  }

  /** `extract_page_info` run by worker `w`. A failure to start the browser
      escapes (driver creation is outside the `try`); a failed visit becomes
      an error payload and empties the slot, unless `quit()` itself raises. */
  function ExtractPageInfo(pool: Pool, w: nat, url: string, task: Task): (r: Result<(BasePayload, Pool), ScrapeError>)
    ensures r.Ok? ==> r.value.0 == PagePayload(url, task.outcome)
    ensures r.Ok? ==> r.value.0.url == url && !r.value.0.isYoutube
    ensures r.Ok? && task.outcome.FetchFailed? ==>
              r.value.0.title == ErrorTitle && SlotOf(r.value.1, w) == Empty
    ensures r.Ok? && task.outcome.Loaded? ==>
              && SlotOf(r.value.1, w).Holding?
              && (SlotOf(pool, w).Holding? ==> SlotOf(r.value.1, w) == SlotOf(pool, w))
    ensures r.Ok? ==> forall v :: v != w ==> SlotOf(r.value.1, v) == SlotOf(pool, v)
    ensures r.Err? <==>
              (SlotOf(pool, w).Empty? && !task.launchOk) || (task.outcome.FetchFailed? && !task.quitOk && (SlotOf(pool, w).Holding? || task.launchOk))
    ensures WellFormed(pool) && r.Ok? ==> WellFormed(r.value.1)
  {
    match GetPooledDriver(pool, w, task.launchOk)
    case Err(e) => Err(e)
    case Ok((driver, pool')) =>
      match task.outcome
      case Loaded(_, _) => Ok((PagePayload(url, task.outcome), pool'))
      case FetchFailed(_) =>
        if task.quitOk then Ok((PagePayload(url, task.outcome), Pool(pool'.slots[w := Empty], pool'.created)))
        else Err(QuitFailed(url))
  }

  /** After a failed visit the worker's next task starts a brand-new driver;
      after a successful one it reuses the same driver. */
  lemma SlotLifecycle(pool: Pool, w: nat, url: string, t1: Task, next: string, t2: Task)
    requires WellFormed(pool)
    requires t1.worker == w && t2.worker == w
    ensures ExtractPageInfo(pool, w, url, t1).Ok? ==>
            var mid := ExtractPageInfo(pool, w, url, t1).value.1;
            && (t1.outcome.FetchFailed? && t2.launchOk ==>
                  GetPooledDriver(mid, w, t2.launchOk).value.0.serial == mid.created
                  && (forall v :: v in mid.slots && mid.slots[v].Holding? ==> mid.slots[v].driver.serial < mid.created))
            && (t1.outcome.Loaded? ==> GetPooledDriver(mid, w, t2.launchOk) == Ok((SlotOf(mid, w).driver, mid)))
  {
  }

  /** Running the tasks in order, each URL by its task's worker. */
  function RunTasks(pool: Pool, urls: seq<string>, tasks: seq<Task>): (r: Result<(seq<BasePayload>, Pool), ScrapeError>)
    requires |tasks| == |urls|
    ensures r.Ok? ==> |r.value.0| == |urls|
    ensures r.Ok? ==> forall i :: 0 <= i < |urls| ==> r.value.0[i] == PagePayload(urls[i], tasks[i].outcome)
    ensures WellFormed(pool) && r.Ok? ==> WellFormed(r.value.1)
    ensures (forall i :: 0 <= i < |tasks| ==> tasks[i].launchOk && tasks[i].quitOk) ==> r.Ok?
    decreases |urls|
  {
    if |urls| == 0 then Ok(([], pool))
    else
      var first := ExtractPageInfo(pool, tasks[0].worker, urls[0], tasks[0]);
      if first.Err? then Err(first.error)
      else
        var rest := RunTasks(first.value.1, urls[1..], tasks[1..]);
        if rest.Err? then Err(rest.error)
        else
          PayloadsCons(first.value.0, rest.value.0, urls, tasks);
          Ok(([first.value.0] + rest.value.0, rest.value.1))
  }

  /** The payloads of a first task and of the remaining tasks are the
      payloads of all the tasks. */
  lemma PayloadsCons(p: BasePayload, rest: seq<BasePayload>, urls: seq<string>, tasks: seq<Task>)
    requires |tasks| == |urls| > 0 && |rest| == |urls| - 1
    requires p == PagePayload(urls[0], tasks[0].outcome)
    requires forall i :: 0 <= i < |rest| ==> rest[i] == PagePayload(urls[1..][i], tasks[1..][i].outcome)
    ensures forall i :: 0 <= i < |urls| ==> ([p] + rest)[i] == PagePayload(urls[i], tasks[i].outcome)
  {
    forall i | 0 <= i < |urls|
      ensures ([p] + rest)[i] == PagePayload(urls[i], tasks[i].outcome)
    {
      if i > 0 {
        ConsTail(p, rest, urls, tasks, i);
      }
    }
  }

  /** Index `i > 0` of a cons is index `i - 1` of the tails. */
  lemma ConsTail<X, Y, Z>(p: Z, rest: seq<Z>, xs: seq<X>, ys: seq<Y>, i: nat)
    requires |ys| == |xs| && |rest| == |xs| - 1 && 0 < i < |xs|
    ensures ([p] + rest)[i] == rest[i - 1] && xs[1..][i - 1] == xs[i] && ys[1..][i - 1] == ys[i]
  {
  }

  /** The URL of each payload handed to the scraper. */
  function UrlsOf(items: seq<BasePayload>): (r: seq<string>)
    ensures |r| == |items| && forall i :: 0 <= i < |items| ==> r[i] == items[i].url
  {
    seq(|items|, i requires 0 <= i < |items| => items[i].url)
  }

  /** `extract_external_links_info`: one payload per input, in input order,
      each built from its own URL's visit. A new thread pool is made for every
      call, so every worker starts with an empty slot; the drivers left in
      the slots at the end are returned with the results. */
  function ExtractExternalLinksInfo(items: seq<BasePayload>, tasks: seq<Task>): (r: Result<(seq<BasePayload>, Pool), ScrapeError>)
    requires |tasks| == |items|
    requires forall i :: 0 <= i < |tasks| ==> tasks[i].worker < FetchWorkers
    ensures r.Ok? ==> |r.value.0| == |items|
    ensures r.Ok? ==> forall i :: 0 <= i < |items| ==> r.value.0[i] == PagePayload(items[i].url, tasks[i].outcome)
    ensures r.Ok? ==> WellFormed(r.value.1)
    ensures (forall i :: 0 <= i < |tasks| ==> tasks[i].launchOk && tasks[i].quitOk) ==> r.Ok?
  {
    RunTasks(Pool(map[], 0), UrlsOf(items), tasks)
  }

  /** Which worker ran which URL does not change the payloads. */
  lemma ScheduleIrrelevant(items: seq<BasePayload>, tasks: seq<Task>, other: seq<Task>)
    requires |tasks| == |items| && |other| == |items|
    requires forall i :: 0 <= i < |items| ==> tasks[i].worker < FetchWorkers && other[i].worker < FetchWorkers
    requires forall i :: 0 <= i < |items| ==> tasks[i].outcome == other[i].outcome
    ensures ExtractExternalLinksInfo(items, tasks).Ok? && ExtractExternalLinksInfo(items, other).Ok? ==>
              ExtractExternalLinksInfo(items, tasks).value.0 == ExtractExternalLinksInfo(items, other).value.0
  {
    if ExtractExternalLinksInfo(items, tasks).Ok? && ExtractExternalLinksInfo(items, other).Ok? {
    var a := ExtractExternalLinksInfo(items, tasks).value.0;
    var b := ExtractExternalLinksInfo(items, other).value.0;
    assert forall i :: 0 <= i < |items| ==> a[i] == b[i] by {
      forall i | 0 <= i < |items|
        ensures a[i] == b[i]
      {
        assert a[i] == PagePayload(items[i].url, tasks[i].outcome);
      }
    }
    }
  }

  /** One attempt of `close_all_drivers`. */
  datatype QuitAttempt = Closed(worker: nat) | CouldNotClose(worker: nat)

  /** `close_all_drivers`: `quit()` is attempted on every entry of the pool,
      in order, whether or not an earlier attempt failed. */
  function CloseAllDrivers(pool: seq<(nat, Driver)>, quitOk: seq<bool>): (r: seq<QuitAttempt>)
    requires |quitOk| == |pool|
    ensures |r| == |pool|
    ensures forall i :: 0 <= i < |pool| ==> r[i].worker == pool[i].0
    ensures forall i :: 0 <= i < |pool| ==> (r[i].Closed? <==> quitOk[i])
  {
    seq(|pool|, i requires 0 <= i < |pool| => if quitOk[i] then Closed(pool[i].0) else CouldNotClose(pool[i].0))
  }

  /** Closing two pools one after the other is closing them together: what
      happens to the first pool's drivers, failures included, has no effect
      on the attempts made for the second. */
  lemma CloseAllDriversAppend(pool: seq<(nat, Driver)>, quitOk: seq<bool>, more: seq<(nat, Driver)>, moreOk: seq<bool>)
    requires |quitOk| == |pool| && |moreOk| == |more|
    ensures CloseAllDrivers(pool + more, quitOk + moreOk) == CloseAllDrivers(pool, quitOk) + CloseAllDrivers(more, moreOk)
  {
    var r := CloseAllDrivers(pool + more, quitOk + moreOk);
    var a := CloseAllDrivers(pool, quitOk);
    var b := CloseAllDrivers(more, moreOk);
    forall i | |pool| <= i < |r|
      ensures r[i] == b[i - |pool|]
    {
      assert (pool + more)[i] == more[i - |pool|];
      assert (quitOk + moreOk)[i] == moreOk[i - |pool|];
    }
  }
}
