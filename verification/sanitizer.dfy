/**
 * `utils.py`: the text sanitiser and the link and image rules of the HTML
 * parser. The parser itself (building a tree out of HTML) is replaced by its
 * output: the anchors that carry an `href`, the images that carry a `src`, and
 * the visible text of the page.
 */
module Sanitizer {
  import opened Options
  import opened Strings
  import opened Payloads

  // ---------------------------------------------------------------------------
  // sanitize_text
  // ---------------------------------------------------------------------------

  /** The characters of `s` that are not whitespace, in order. */
  function NonWs(s: string): string
    decreases |s|
  {
    if |s| == 0 then ""
    else (if IsWs(s[0]) then "" else [s[0]]) + NonWs(s[1..])
  }

  lemma {:induction false} NonWsAppend(a: string, b: string)
    ensures NonWs(a + b) == NonWs(a) + NonWs(b)
    decreases |a|
  {
    if |a| > 0 {
      assert (a + b)[0] == a[0];
      assert (a + b)[1..] == a[1..] + b;
      NonWsAppend(a[1..], b);
    } else {
      assert a + b == b;
    }
  }

  lemma {:induction false} NonWsAllWs(s: string)
    requires forall k :: 0 <= k < |s| ==> IsWs(s[k])
    ensures NonWs(s) == ""
    decreases |s|
  {
    if |s| > 0 {
      NonWsAllWs(s[1..]);
    }
  }

  /** Stripping whitespace from both ends keeps every visible character. */
  lemma NonWsStrip(s: string)
    ensures NonWs(Strip(s)) == NonWs(s)
  {
    NonWsStripLeft(s);
    var l := LStrip(s);
    var r := RStrip(l);
    assert l == r + l[|r|..];
    NonWsAppend(r, l[|r|..]);
    NonWsAllWs(l[|r|..]);
  }

  /** `re.sub(r'\s+', ' ', s)`: every maximal run of whitespace becomes one space. */
  function CollapseWs(s: string): (r: string)
    ensures |r| <= |s|
    ensures forall i :: 0 <= i < |r| && IsWs(r[i]) ==> r[i] == ' '
    ensures forall i :: 0 <= i < |r| - 1 ==> !(r[i] == ' ' && r[i + 1] == ' ')
    ensures |s| > 0 ==> |r| > 0 && (IsWs(s[0]) ==> r[0] == ' ') && (!IsWs(s[0]) ==> r[0] == s[0])
    ensures NonWs(r) == NonWs(s)
    ensures (forall i :: 0 <= i < |s| ==> !IsWs(s[i])) ==> r == s
    decreases |s|
  {
    if |s| == 0 then ""
    else if IsWs(s[0]) then
      NonWsStripLeft(s[1..]);
      " " + CollapseWs(LStrip(s[1..]))
    else
      [s[0]] + CollapseWs(s[1..])
  }

  lemma NonWsStripLeft(s: string)
    ensures NonWs(LStrip(s)) == NonWs(s)
  {
    var n := LeadingWs(s);
    assert s == s[..n] + s[n..];
    NonWsAppend(s[..n], s[n..]);
    NonWsAllWs(s[..n]);
  }

  /** `re.sub(r'[\x00-\x1f\x7f-\x9f]', '', s)`: control characters deleted. */
  function DropControls(s: string): (r: string)
    ensures |r| <= |s|
    ensures forall i :: 0 <= i < |r| ==> !IsControl(r[i])
    ensures (forall i :: 0 <= i < |s| ==> !IsControl(s[i])) ==> r == s
    decreases |s|
  {
    if |s| == 0 then ""
    else (if IsControl(s[0]) then "" else [s[0]]) + DropControls(s[1..])
  }

  lemma {:induction false} DropControlsKeepsOnlySpaces(s: string)
    requires forall i :: 0 <= i < |s| && IsWs(s[i]) ==> s[i] == ' '
    ensures forall i :: 0 <= i < |DropControls(s)| && IsWs(DropControls(s)[i]) ==> DropControls(s)[i] == ' '
    decreases |s|
  {
    if |s| > 0 {
      DropControlsKeepsOnlySpaces(s[1..]);
    }
  }

  /** Deleting control characters and deleting whitespace commute. */
  lemma {:induction false} NonWsDropControls(s: string)
    ensures NonWs(DropControls(s)) == DropControls(NonWs(s))
    decreases |s|
  {
    if |s| > 0 {
      NonWsDropControls(s[1..]);
      var head := if IsControl(s[0]) then "" else [s[0]];
      NonWsAppend(head, DropControls(s[1..]));
      DropControlsAppend(if IsWs(s[0]) then "" else [s[0]], NonWs(s[1..]));
    }
  }

  lemma {:induction false} DropControlsAppend(a: string, b: string)
    ensures DropControls(a + b) == DropControls(a) + DropControls(b)
    decreases |a|
  {
    if |a| > 0 {
      assert (a + b)[0] == a[0];
      assert (a + b)[1..] == a[1..] + b;
      DropControlsAppend(a[1..], b);
      var h := if IsControl(a[0]) then "" else [a[0]];
      assert DropControls(a + b) == h + (DropControls(a[1..]) + DropControls(b));
      assert DropControls(a) == h + DropControls(a[1..]);
    } else {
      assert a + b == b;
    }
  }

  /** `sanitize_text`: whitespace runs collapsed, control characters deleted,
      surrounding whitespace stripped. */
  function SanitizeText(text: string): (r: string)
    ensures |text| == 0 ==> r == ""
    ensures |r| <= |text|
    ensures forall i :: 0 <= i < |r| ==> !IsControl(r[i])
    ensures forall i :: 0 <= i < |r| && IsWs(r[i]) ==> r[i] == ' '
    ensures |r| == 0 || (!IsWs(r[0]) && !IsWs(r[|r| - 1]))
    ensures (forall i :: 0 <= i < |text| ==> !IsWs(text[i]) && !IsControl(text[i])) ==> r == text
  {
    if |text| == 0 then ""
    else
      var collapsed := CollapseWs(text);
      var printable := DropControls(collapsed);
      DropControlsKeepsOnlySpaces(collapsed);
      Strip(printable)
  }

  /** The sanitiser keeps exactly the visible characters of its input: the
      non-whitespace, non-control characters, in their original order. */
  lemma {:induction false} SanitizeKeepsVisibleText(text: string)
    ensures NonWs(SanitizeText(text)) == DropControls(NonWs(text))
  {
    if |text| > 0 {
      var collapsed := CollapseWs(text);
      NonWsStrip(DropControls(collapsed));
      NonWsDropControls(collapsed);
    }
  }

  lemma CollapseVisibleHead(c: char, s: string)
    requires !IsWs(c)
    ensures CollapseWs([c] + s) == [c] + CollapseWs(s)
  {
    assert ([c] + s)[1..] == s;
  }

  lemma CollapseWsHead(c: char, s: string)
    requires IsWs(c)
    ensures CollapseWs([c] + s) == " " + CollapseWs(LStrip(s))
  {
    assert ([c] + s)[1..] == s;
  }

  lemma DropControlsHead(c: char, s: string)
    ensures DropControls([c] + s) == (if IsControl(c) then "" else [c]) + DropControls(s)
  {
    assert ([c] + s)[1..] == s;
  }

  lemma LStripVisibleHead(c: char, s: string)
    requires !IsWs(c)
    ensures LStrip([c] + s) == [c] + s
  {
    assert ([c] + s)[0] == c;
  }

  lemma LStripWsHead(c: char, s: string)
    requires IsWs(c)
    ensures LStrip([c] + s) == LStrip(s)
  {
    assert ([c] + s)[0] == c;
    assert ([c] + s)[1..] == s;
  }

  /** The single letter "b" is left as it is by the collapse and by `lstrip`. */
  lemma CollapseExampleLetter()
    ensures CollapseWs("b") == "b" && LStrip("b") == "b"
  {
    CollapseVisibleHead('b', "");
    LStripVisibleHead('b', "");
    assert ['b'] + "" == "b";
  }

  lemma CollapseExampleControlTail()
    ensures CollapseWs("\U{0001} b") == "\U{0001} b"
    ensures LStrip("\U{0001} b") == "\U{0001} b"
  {
    var b := "b";
    CollapseExampleLetter();
    var sb := [' '] + b;
    CollapseWsHead(' ', b);
    assert CollapseWs(sb) == sb;
    CollapseVisibleHead('\U{0001}', sb);
    LStripVisibleHead('\U{0001}', sb);
    assert "\U{0001} b" == ['\U{0001}'] + sb;
  }

  lemma CollapseExampleControl()
    ensures CollapseWs("a \U{0001} b") == "a \U{0001} b"
  {
    var t := "\U{0001} b";
    CollapseExampleControlTail();
    var st := [' '] + t;
    CollapseWsHead(' ', t);
    assert CollapseWs(st) == st;
    CollapseVisibleHead('a', st);
    assert "a \U{0001} b" == ['a'] + st;
  }

  lemma CollapseExampleSpaces()
    ensures CollapseWs("a  b") == "a b"
  {
    var b := "b";
    CollapseExampleLetter();
    var sb := [' '] + b;
    LStripWsHead(' ', b);
    CollapseWsHead(' ', sb);
    assert CollapseWs([' '] + sb) == [' '] + b;
    CollapseVisibleHead('a', [' '] + sb);
    assert "a  b" == ['a'] + ([' '] + sb);
    assert "a b" == ['a'] + ([' '] + b);
  }

  lemma DropControlsExampleControl()
    ensures DropControls("a \U{0001} b") == "a  b"
  {
    DropControlsHead('b', "");
    DropControlsHead(' ', "b");
    DropControlsHead('\U{0001}', " b");
    DropControlsHead(' ', "\U{0001} b");
    DropControlsHead('a', " \U{0001} b");
  }

  /** A control character between two spaces leaves a double space behind. */
  lemma SanitizeControlBetweenSpaces()
    ensures SanitizeText("a \U{0001} b") == "a  b"
  {
    CollapseExampleControl();
    DropControlsExampleControl();
    assert Strip("a  b") == "a  b";
  }

  /** A double space collapses to one. */
  lemma SanitizeDoubleSpace()
    ensures SanitizeText("a  b") == "a b"
  {
    CollapseExampleSpaces();
    assert Strip("a b") == "a b";
  }

  /** Runs are collapsed before control characters are deleted, so a control
      character between two spaces leaves a double space behind; sanitising
      that output again changes it, so the sanitiser is not idempotent. */
  lemma SanitizeNotIdempotent()
    ensures SanitizeText("a \U{0001} b") == "a  b"
    ensures SanitizeText(SanitizeText("a \U{0001} b")) == "a b"
    ensures exists t :: SanitizeText(SanitizeText(t)) != SanitizeText(t)
  {
    SanitizeControlBetweenSpaces();
    SanitizeDoubleSpace();
    var t := "a \U{0001} b";
    assert SanitizeText(SanitizeText(t)) != SanitizeText(t);
  }

  // ---------------------------------------------------------------------------
  // parse_html_content: links and images
  // ---------------------------------------------------------------------------

  /** An `<a>` element that carries an `href` attribute, with its text. */
  datatype AnchorTag = AnchorTag(href: string, text: string)

  /** An `<img>` element that carries a `src` attribute, with its `height`
      attribute when present. */
  datatype ImageTag = ImageTag(src: string, height: Option<string>)

  /** What the HTML parser sees of a page: anchors and images in document
      order, and the visible text left after script, style and navigation
      elements are removed. */
  datatype ParsedPage = ParsedPage(anchors: seq<AnchorTag>, images: seq<ImageTag>, visibleText: string)

  /** The result of `parse_html_content`. */
  datatype HtmlContent = HtmlContent(fullText: string, links: seq<BasePayload>, images: seq<ImagePayload>)

  predicate KeepsLink(a: AnchorTag) {
    StartsWith(a.href, "https")
  }

  /** The link record one anchor yields, if its `href` starts with `https`. */
  function LinkOf(a: AnchorTag): (r: Option<BasePayload>)
    ensures r.Some? <==> KeepsLink(a)
    ensures r.Some? ==> r.value.url == a.href && r.value.title == SanitizeText(a.text) && !r.value.isYoutube
  {
    if KeepsLink(a) then Some(LinkPayload(a.href, SanitizeText(a.text))) else None
  }

  /** The link records kept from a list of anchors. */
  function ExtractLinks(anchors: seq<AnchorTag>): (r: seq<BasePayload>)
    ensures |r| <= |anchors|
    ensures forall i :: 0 <= i < |r| ==> StartsWith(r[i].url, "https") && !r[i].isYoutube
    decreases |anchors|
  {
    if |anchors| == 0 then []
    else
      LinkSeq(anchors[0]) + ExtractLinks(anchors[1..])
  }

  function LinkSeq(a: AnchorTag): seq<BasePayload> {
    match LinkOf(a) case Some(p) => [p] case None => []
  }

  /** One anchor yields one link, carrying its `href` and its sanitised text,
      exactly when the `href` starts with `https`. */
  lemma ExtractLinksSingleton(a: AnchorTag)
    ensures |ExtractLinks([a])| == 1 <==> KeepsLink(a)
    ensures ExtractLinks([a]) == if KeepsLink(a) then [LinkPayload(a.href, SanitizeText(a.text))] else []
  {
    assert [a][1..] == [];
  }

  /** Link extraction works anchor by anchor and keeps document order. */
  lemma {:induction false} ExtractLinksAppend(a: seq<AnchorTag>, b: seq<AnchorTag>)
    ensures ExtractLinks(a + b) == ExtractLinks(a) + ExtractLinks(b)
    decreases |a|
  {
    if |a| > 0 {
      assert (a + b)[0] == a[0];
      assert (a + b)[1..] == a[1..] + b;
      ExtractLinksAppend(a[1..], b);
      var h := LinkSeq(a[0]);
      assert ExtractLinks(a + b) == h + (ExtractLinks(a[1..]) + ExtractLinks(b));
      assert ExtractLinks(a) == h + ExtractLinks(a[1..]);
    } else {
      assert a + b == b;
    }
  }

  /** The image kept from one `<img>` element, if any: its height must parse
      as an integer greater than 100; an unparsable height skips the image. */
  function ImageOf(img: ImageTag): (r: Option<ImagePayload>)
    ensures r.Some? <==> img.height.Some? && ParseInt(img.height.value).Some? && ParseInt(img.height.value).value > 100
    ensures r.Some? ==> r.value.src == img.src && Some(r.value.height) == ParseInt(img.height.value)
  {
    match img.height
    case None => None
    case Some(h) =>
      if |h| == 0 then None
      else
        match ParseInt(h)
        case None => None
        case Some(v) => if v > 100 then Some(ImagePayload(img.src, v)) else None
  }

  /** The images kept from a list of `<img>` elements. */
  function ExtractImages(images: seq<ImageTag>): (r: seq<ImagePayload>)
    ensures |r| <= |images|
    ensures forall i :: 0 <= i < |r| ==> r[i].height > 100
    decreases |images|
  {
    if |images| == 0 then []
    else
      ImageSeq(images[0]) + ExtractImages(images[1..])
  }

  function ImageSeq(img: ImageTag): seq<ImagePayload> {
    match ImageOf(img) case Some(p) => [p] case None => []
  }

  /** Image extraction works element by element and keeps document order. */
  lemma {:induction false} ExtractImagesAppend(a: seq<ImageTag>, b: seq<ImageTag>)
    ensures ExtractImages(a + b) == ExtractImages(a) + ExtractImages(b)
    decreases |a|
  {
    if |a| > 0 {
      assert (a + b)[0] == a[0];
      assert (a + b)[1..] == a[1..] + b;
      ExtractImagesAppend(a[1..], b);
      var h := ImageSeq(a[0]);
      assert ExtractImages(a + b) == h + (ExtractImages(a[1..]) + ExtractImages(b));
      assert ExtractImages(a) == h + ExtractImages(a[1..]);
    } else {
      assert a + b == b;
    }
  }

  /** A height written in decimal is kept exactly when it exceeds 100. */
  lemma {:induction false} ImageHeightThreshold(src: string, h: int)
    ensures ExtractImages([ImageTag(src, Some(ShowInt(h)))]) == (if h > 100 then [ImagePayload(src, h)] else [])
  {
    ParseShowInt(h);
    var img := ImageTag(src, Some(ShowInt(h)));
    assert [img][1..] == [];
  }

  /** A height that is not an integer skips the image instead of failing. */
  lemma ImageUnparsableHeightSkipped(src: string)
    ensures ExtractImages([ImageTag(src, Some("tall"))]) == []
  {
    var t := ImageTag(src, Some("tall"));
    assert ParseInt("tall") == None by {
      assert Strip("tall") == "tall";
      assert !IsDigit("tall"[0]);
    }
    assert ImageOf(t) == None;
    assert [t][1..] == [];
  }

  /** `parse_html_content`: links, images and sanitised full text of a page. */
  function ParseHtmlContent(page: ParsedPage): (r: HtmlContent)
    ensures |r.links| <= |page.anchors| && |r.images| <= |page.images|
    ensures forall i :: 0 <= i < |r.links| ==> StartsWith(r.links[i].url, "https")
    ensures forall i :: 0 <= i < |r.images| ==> r.images[i].height > 100
    ensures forall i :: 0 <= i < |r.fullText| ==> !IsControl(r.fullText[i])
    ensures NonWs(r.fullText) == DropControls(NonWs(page.visibleText))
    ensures r.fullText == SanitizeText(page.visibleText)
    ensures r.links == ExtractLinks(page.anchors) && r.images == ExtractImages(page.images)
  {
    SanitizeKeepsVisibleText(page.visibleText);
    HtmlContent(SanitizeText(page.visibleText), ExtractLinks(page.anchors), ExtractImages(page.images))
  }
}
