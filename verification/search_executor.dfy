/**
 * `fact_checker_agent/tool/search_executor.py`: turning a Google results page
 * into result records. The browser session that fetches the page is replaced
 * by its outcome: the combined HTML text and, for each CSS selector, the
 * result blocks it selects in that HTML.
 */
module SearchExecutor {
  import opened Options
  import opened Strings
  import opened Payloads
  import Sanitizer
  import Dedup

  /** The container selectors, tried in this order. */
  const ResultSelectors: seq<string> := ["div.g", "div.MjjYud", "div.Ww4FFb", "div[data-sokoban-container]"]

  /** The redirect prefix Google puts in front of result links. */
  const RedirectPrefix: string := "/url?q="

  /** What one result container holds: the text of its first `h3`, the
      `href` of its first `a` (`None` when there is no link or no `href`),
      and the text of its snippet element, if one is found. */
  datatype ResultBlock = ResultBlock(title: Option<string>, href: Option<string>, snippet: Option<string>)

  /** A parsed results page: what each selector selects, and the whole
      page's text. */
  datatype ResultsPage = ResultsPage(containers: map<string, seq<ResultBlock>>, text: string)

  function Select(page: ResultsPage, selector: string): seq<ResultBlock> {
    if selector in page.containers then page.containers[selector] else []
  }

  /** The index of the first selector that selects anything, or `|selectors|`. */
  function FirstMatch(page: ResultsPage, selectors: seq<string>): (i: nat)
    ensures i <= |selectors|
    ensures i < |selectors| ==> |Select(page, selectors[i])| > 0
    ensures forall j :: 0 <= j < i ==> |Select(page, selectors[j])| == 0
    decreases |selectors|
  {
    if |selectors| == 0 then 0
    else if |Select(page, selectors[0])| > 0 then 0
    else 1 + FirstMatch(page, selectors[1..])
  }

  // ---------------------------------------------------------------------------
  // parse_qs(urlparse(href).query).get('q', [None])[0]
  // ---------------------------------------------------------------------------

  predicate IsUnsafeUrlChar(c: char) {
    c == '\t' || c == '\r' || c == '\n'
  }

  /** `urlsplit` first deletes tab, carriage return and line feed everywhere. */
  function RemoveUnsafe(s: string): (r: string)
    ensures |r| <= |s|
    ensures forall i :: 0 <= i < |r| ==> !IsUnsafeUrlChar(r[i])
    ensures (forall i :: 0 <= i < |s| ==> !IsUnsafeUrlChar(s[i])) ==> r == s
    decreases |s|
  {
    if |s| == 0 then ""
    else if IsUnsafeUrlChar(s[0]) then RemoveUnsafe(s[1..])
    else [s[0]] + RemoveUnsafe(s[1..])
  }

  /** The query component of a reference without scheme or authority: the
      text after the first `?` and before the fragment. */
  function QueryOf(href: string): (q: string)
    ensures |q| <= |href|
  {
    var u := RemoveUnsafe(href);
    var beforeFragment := if '#' in u then u[..IndexOf(u, '#')] else u;
    if '?' in beforeFragment then beforeFragment[IndexOf(beforeFragment, '?') + 1..] else ""
  }

  /** `+` stands for a space in a query string. */
  function PlusToSpace(s: string): (r: string)
    ensures |r| == |s|
    ensures forall i :: 0 <= i < |s| ==> r[i] == if s[i] == '+' then ' ' else s[i]
  {
    seq(|s|, i requires 0 <= i < |s| => if s[i] == '+' then ' ' else s[i])
  }

  /** `unquote`: text without `%` is returned as it is; percent-decoding of
      the rest is the parameter `percentDecode`. */
  function Unquote(s: string, percentDecode: string -> string): (r: string)
    ensures '%' !in s ==> r == s
  {
    if '%' !in s then s else percentDecode(s)
  }

  /** One `name=value` field of a query. Fields with no `=` or an empty value
      are dropped (blank values are not kept). */
  function FieldPair(field: string, percentDecode: string -> string): (r: Option<(string, string)>)
    ensures r.Some? <==> '=' in field && IndexOf(field, '=') + 1 < |field|
  {
    if '=' !in field then None
    else
      var i := IndexOf(field, '=');
      var name := field[..i];
      var value := field[i + 1..];
      if |value| == 0 then None
      else Some((Unquote(PlusToSpace(name), percentDecode), Unquote(PlusToSpace(value), percentDecode)))
  }

  /** `parse_qsl`: the decoded pairs of the `&`-separated fields, in order. */
  function FieldPairs(fields: seq<string>, percentDecode: string -> string): (r: seq<(string, string)>)
    ensures |r| <= |fields|
    decreases |fields|
  {
    if |fields| == 0 then []
    else
      var rest := FieldPairs(fields[1..], percentDecode);
      match FieldPair(fields[0], percentDecode)
      case None => rest
      case Some(p) => [p] + rest
  }

  /** The first value given for `name`: `parse_qs(...).get(name, [None])[0]`. */
  function FirstValue(pairs: seq<(string, string)>, name: string): (r: Option<string>)
    ensures r.Some? <==> exists i :: 0 <= i < |pairs| && pairs[i].0 == name
    ensures r.Some? ==> exists i :: 0 <= i < |pairs| && pairs[i] == (name, r.value)
    decreases |pairs|
  {
    if |pairs| == 0 then None
    else if pairs[0].0 == name then Some(pairs[0].1)
    else
      var r := FirstValue(pairs[1..], name);
      assert forall i :: 1 <= i < |pairs| ==> pairs[i] == pairs[1..][i - 1];
      assert r.Some? ==> exists i :: 1 <= i < |pairs| && pairs[i] == (name, r.value);
      r
  }

  /** The link a result points to: a Google redirect is replaced by its `q`
      parameter (`None` when it has none); any other link is kept. */
  function UnwrapHref(href: string, percentDecode: string -> string): (r: Option<string>)
    ensures !StartsWith(href, RedirectPrefix) ==> r == Some(href)
  {
    if StartsWith(href, RedirectPrefix) then
      FirstValue(FieldPairs(Split(QueryOf(href), '&'), percentDecode), "q")
    else Some(href)
  }

  /** A character that survives the query parsing untouched. */
  predicate IsPlainQueryChar(c: char) {
    !IsUnsafeUrlChar(c) && c != '&' && c != '#' && c != '%' && c != '+'
  }

  /** For a redirect without unsafe characters or fragment, the query is
      everything after `?`. */
  lemma {:induction false} QueryOfRedirect(rest: string)
    requires forall i :: 0 <= i < |rest| ==> !IsUnsafeUrlChar(rest[i]) && rest[i] != '#'
    ensures QueryOf(RedirectPrefix + rest) == "q=" + rest
  {
    var href := RedirectPrefix + rest;
    assert forall i :: |RedirectPrefix| <= i < |href| ==> href[i] == rest[i - |RedirectPrefix|];
    assert RemoveUnsafe(href) == href;
    assert '#' !in href;
    assert href[4] == '?';
    assert IndexOf(href, '?') == 4;
    assert href[5..] == "q=" + rest;
  }

  /** The `q=` field of a plain target decodes to the target. */
  lemma TargetField(target: string, percentDecode: string -> string)
    requires |target| > 0
    requires forall i :: 0 <= i < |target| ==> IsPlainQueryChar(target[i])
    ensures FieldPair("q=" + target, percentDecode) == Some(("q", target))
  {
    var field := "q=" + target;
    assert IndexOf(field, '=') == 1;
    assert field[..1] == "q";
    assert field[2..] == target;
    assert PlusToSpace(target) == target;
    assert PlusToSpace("q") == "q";
  }

  /** A first field naming `q` decides the value, whatever follows it. */
  lemma FirstFieldDecides(field: string, more: seq<string>, target: string, percentDecode: string -> string)
    requires FieldPair(field, percentDecode) == Some(("q", target))
    ensures FirstValue(FieldPairs([field] + more, percentDecode), "q") == Some(target)
  {
    assert ([field] + more)[0] == field;
    assert ([field] + more)[1..] == more;
  }

  /** A plain target followed by `&` and a tail without unsafe characters or
      fragment has neither itself. */
  lemma RedirectRestSafe(target: string, tail: string)
    requires forall i :: 0 <= i < |target| ==> IsPlainQueryChar(target[i])
    requires forall i :: 0 <= i < |tail| ==> !IsUnsafeUrlChar(tail[i]) && tail[i] != '#'
    ensures var rest := target + "&" + tail;
            forall i :: 0 <= i < |rest| ==> !IsUnsafeUrlChar(rest[i]) && rest[i] != '#'
  {
    var rest := target + "&" + tail;
    forall i | 0 <= i < |rest|
      ensures !IsUnsafeUrlChar(rest[i]) && rest[i] != '#'
    {
      if i < |target| {
        assert rest[i] == target[i];
      } else if i > |target| {
        assert rest[i] == tail[i - |target| - 1];
      }
    }
  }

  /** The query of such a redirect is its `q=` field, `&`, then the tail. */
  lemma {:induction false} RedirectQuery(target: string, tail: string)
    requires forall i :: 0 <= i < |target| ==> IsPlainQueryChar(target[i])
    requires forall i :: 0 <= i < |tail| ==> !IsUnsafeUrlChar(tail[i]) && tail[i] != '#'
    ensures QueryOf(RedirectPrefix + (target + "&" + tail)) == "q=" + (target + "&" + tail)
  {
    RedirectRestSafe(target, tail);
    QueryOfRedirect(target + "&" + tail);
  }

  lemma RedirectShape(target: string, tail: string)
    ensures RedirectPrefix + target + "&" + tail == RedirectPrefix + (target + "&" + tail)
    ensures "q=" + (target + "&" + tail) == ("q=" + target) + ['&'] + tail
  {
  }

  lemma PlainFieldHasNoAmpersand(target: string)
    requires forall i :: 0 <= i < |target| ==> IsPlainQueryChar(target[i])
    ensures '&' !in "q=" + target
  {
    var field := "q=" + target;
    assert forall i :: 2 <= i < |field| ==> field[i] == target[i - 2];
  }

  /** Unwrapping a redirect built from a plain target gives the target back,
      whatever further parameters follow it. */
  lemma {:induction false} UnwrapRedirect(target: string, tail: string, percentDecode: string -> string)
    requires |target| > 0
    requires forall i :: 0 <= i < |target| ==> IsPlainQueryChar(target[i])
    requires forall i :: 0 <= i < |tail| ==> !IsUnsafeUrlChar(tail[i]) && tail[i] != '#'
    ensures UnwrapHref(RedirectPrefix + target + "&" + tail, percentDecode) == Some(target)
  {
    var href := RedirectPrefix + target + "&" + tail;
    assert StartsWith(href, RedirectPrefix) by {
      assert href[..|RedirectPrefix|] == RedirectPrefix;
    }
    var field := "q=" + target;
    RedirectShape(target, tail);
    RedirectQuery(target, tail);
    PlainFieldHasNoAmpersand(target);
    SplitCons(field, '&', tail);
    TargetField(target, percentDecode);
    FirstFieldDecides(field, Split(tail, '&'), target, percentDecode);
  }

  // ---------------------------------------------------------------------------
  // extract_from_webpage / extract_search_information
  // ---------------------------------------------------------------------------

  /** The record a result block yields, if it has a title and a link and its
      (unwrapped) link is a non-empty `http` URL. The snippet, sanitized, is
      both the short description and the summary. */
  function Candidate(block: ResultBlock, percentDecode: string -> string): (r: Option<BasePayload>)
    ensures r.Some? ==>
              && block.title.Some? && block.href.Some? && |block.href.value| > 0
              && UnwrapHref(block.href.value, percentDecode) == Some(r.value.url)
              && |r.value.url| > 0 && StartsWith(r.value.url, "http")
              && r.value.title == Sanitizer.SanitizeText(block.title.value)
              && r.value.shortDescription == r.value.summary
              && r.value.summary == (if block.snippet.Some? then Sanitizer.SanitizeText(block.snippet.value) else "")
              && r.value.contentSummary.None? && !r.value.isYoutube
    ensures r.None? <==>
              || block.title.None? || block.href.None? || |block.href.value| == 0
              || var u := UnwrapHref(block.href.value, percentDecode);
                 u.None? || |u.value| == 0 || !StartsWith(u.value, "http")
  {
    if !(block.title.Some? && block.href.Some? && |block.href.value| > 0) then None
    else
      var title := Sanitizer.SanitizeText(block.title.value);
      match UnwrapHref(block.href.value, percentDecode)
      case None => None
      case Some(url) =>
        if |url| == 0 || !StartsWith(url, "http") then None
        else
          var description := if block.snippet.Some? then Sanitizer.SanitizeText(block.snippet.value) else "";
          Some(BasePayload(url, title, description, description, None, false))
  }

  /** The records of the blocks that yield one, in block order. */
  function Candidates(blocks: seq<ResultBlock>, percentDecode: string -> string): (r: seq<BasePayload>)
    ensures |r| <= |blocks|
    ensures forall i :: 0 <= i < |r| ==> |r[i].url| > 0 && StartsWith(r[i].url, "http")
    ensures forall i :: 0 <= i < |r| ==> r[i].shortDescription == r[i].summary && !r[i].isYoutube
    decreases |blocks|
  {
    if |blocks| == 0 then []
    else CandidateSeq(blocks[0], percentDecode) + Candidates(blocks[1..], percentDecode)
  }

  function CandidateSeq(block: ResultBlock, percentDecode: string -> string): (r: seq<BasePayload>)
    ensures |r| <= 1
    ensures forall i :: 0 <= i < |r| ==> |r[i].url| > 0 && StartsWith(r[i].url, "http")
    ensures forall i :: 0 <= i < |r| ==> r[i].shortDescription == r[i].summary && !r[i].isYoutube
  {
    match Candidate(block, percentDecode) case Some(p) => [p] case None => []
  }

  /** Candidates distribute over concatenation of block lists. */
  lemma {:induction false} CandidatesAppend(a: seq<ResultBlock>, b: seq<ResultBlock>, percentDecode: string -> string)
    ensures Candidates(a + b, percentDecode) == Candidates(a, percentDecode) + Candidates(b, percentDecode)
    decreases |a|
  {
    if |a| == 0 {
      assert a + b == b;
    } else {
      var ab := a + b;
      assert ab[0] == a[0];
      assert ab[1..] == a[1..] + b;
      CandidatesAppend(a[1..], b, percentDecode);
      var h := CandidateSeq(a[0], percentDecode);
      calc {
        Candidates(ab, percentDecode);
        h + Candidates(a[1..] + b, percentDecode);
        h + (Candidates(a[1..], percentDecode) + Candidates(b, percentDecode));
        (h + Candidates(a[1..], percentDecode)) + Candidates(b, percentDecode);
        Candidates(a, percentDecode) + Candidates(b, percentDecode);
      }
    }
  }

  /** A single block contributes exactly its own candidate. */
  lemma CandidatesSingleton(block: ResultBlock, percentDecode: string -> string)
    ensures Candidates([block], percentDecode) ==
              if Candidate(block, percentDecode).Some? then [Candidate(block, percentDecode).value] else []
  {
    assert [block][1..] == [];
  }

  function Url(p: BasePayload): string {
    p.url
  }

  /** `extract_from_webpage`: the results under the first selector that
      matches, keeping the first record for each URL, and the sanitized text
      of the whole page; nothing at all when no selector matches. */
  function ExtractFromWebpage(page: ResultsPage, percentDecode: string -> string): (r: (seq<BasePayload>, string))
    ensures FirstMatch(page, ResultSelectors) == |ResultSelectors| ==> r == ([], "")
    ensures FirstMatch(page, ResultSelectors) < |ResultSelectors| ==>
              var blocks := Select(page, ResultSelectors[FirstMatch(page, ResultSelectors)]);
              && r.0 == Dedup.FirstByKey(Candidates(blocks, percentDecode), Url)
              && r.1 == Sanitizer.SanitizeText(page.text)
    ensures forall i :: 0 <= i < |r.0| ==>
              StartsWith(r.0[i].url, "http") && r.0[i].shortDescription == r.0[i].summary && !r.0[i].isYoutube
    ensures forall i, j :: 0 <= i < j < |r.0| ==> r.0[i].url != r.0[j].url
  {
    var i := FirstMatch(page, ResultSelectors);
    if i == |ResultSelectors| then ([], "")
    else
      var candidates := Candidates(Select(page, ResultSelectors[i]), percentDecode);
      var results := Dedup.FirstByKey(candidates, Url);
      Dedup.FirstByKeyCharacterised(candidates, Url);
      assert forall k :: 0 <= k < |results| ==> results[k] in candidates by {
        forall k | 0 <= k < |results|
          ensures results[k] in candidates
        {
          assert Dedup.FirstWithKey(candidates, Url, Url(results[k])) == Some(results[k]);
        }
      }
      (results, Sanitizer.SanitizeText(page.text))
  }

  /** Every URL among the candidates is kept once, as its first record, and
      the records keep the order in which their URLs first appear. */
  lemma {:induction false} ExtractFromWebpageKeepsFirstPerUrl(page: ResultsPage, percentDecode: string -> string)
    requires FirstMatch(page, ResultSelectors) < |ResultSelectors|
    ensures var candidates := Candidates(Select(page, ResultSelectors[FirstMatch(page, ResultSelectors)]), percentDecode);
            var results := ExtractFromWebpage(page, percentDecode).0;
            && Dedup.KeySet(results, Url) == Dedup.KeySet(candidates, Url)
            && (forall k :: 0 <= k < |results| ==> Dedup.FirstWithKey(candidates, Url, results[k].url) == Some(results[k]))
            && (forall k, l :: 0 <= k < l < |results| ==>
                  Dedup.FirstIndex(candidates, Url, results[k].url) < Dedup.FirstIndex(candidates, Url, results[l].url))
  {
    var candidates := Candidates(Select(page, ResultSelectors[FirstMatch(page, ResultSelectors)]), percentDecode);
    Dedup.FirstByKeyCharacterised(candidates, Url);
  }

  /** `extract_search_information`: empty HTML gives no results and an empty
      page; otherwise the results and the page text, with no images. */
  function ExtractSearchInformation(html: string, page: ResultsPage, percentDecode: string -> string): (r: (seq<BasePayload>, PageContent))
    ensures |html| == 0 ==> r == ([], PageContent("", []))
    ensures |html| > 0 ==>
              && r.0 == ExtractFromWebpage(page, percentDecode).0
              && r.1 == PageContent(ExtractFromWebpage(page, percentDecode).1, [])
    ensures r.1.images == []
  {
    if |html| == 0 then ([], PageContent("", []))
    else
      var (results, text) := ExtractFromWebpage(page, percentDecode);
      (results, PageContent(text, []))
  }
}
