/** The Docling web processor (backend/utils/web_processor_docling.py):
    the fetched page's `<img>` elements are rewritten in place into
    paragraphs holding Markdown image syntax, the converter's Markdown is
    stored under a key derived from the host, and the result names only
    that Markdown. The fetch, the parser, the converter and `urljoin` are
    inputs. */
module WebDocling {
  import opened Values
  import opened Strings
  import opened Storage
  import opened DocumentIds

  /** An element of the parsed page, in document order: an `<img>` with its
      optional `src` and `alt` attributes, a `<p>` with its text, or any
      other element. */
  datatype Node = Img(src: Option<string>, alt: Option<string>) | Para(text: string) | Other(html: string)

  /** `src.startswith(('http://', 'https://'))`. */
  predicate IsAbsolute(src: string)
  {
    StartsWith(src, "http://") || StartsWith(src, "https://")
  }

  /** An absolute `src` is kept, any other is resolved against the page URL. */
  function ResolvedSrc(page: string, src: string, urljoin: (string, string) -> string): (r: string)
    ensures IsAbsolute(src) ==> r == src
    ensures !IsAbsolute(src) ==> r == urljoin(page, src)
  {
    if IsAbsolute(src) then src else urljoin(page, src)
  }

  /** An `<img>` the loop replaces: one whose `src` is present and non-empty. */
  predicate Replaced(n: Node)
  {
    n.Img? && n.src.Some? && n.src.value != ""
  }

  /** The paragraph text `![{alt}]({src})`, `alt` defaulting to `Image`. */
  function ImageText(alt: Option<string>, src: string): string
  {
    "![" + alt.GetOr("Image") + "](" + src + ")"
  }

  /** One iteration of the `<img>` loop. */
  function Rewrite(page: string, urljoin: (string, string) -> string, n: Node): (r: Node)
    ensures !Replaced(n) ==> r == n
    ensures Replaced(n) ==> r.Para? && StartsWith(r.text, "![" + n.alt.GetOr("Image") + "](")
  {
    if Replaced(n) then
      var t := ImageText(n.alt, ResolvedSrc(page, n.src.value, urljoin));
      assert t[..|"![" + n.alt.GetOr("Image") + "]("|] == "![" + n.alt.GetOr("Image") + "](";
      Para(t)
    else n
  }

  /** The page after the loop: each element rewritten where it stands, so
      no `<img>` with a source is left, every `<img>` without one is still
      in place and the other elements are untouched. */
  function RewriteAll(page: string, urljoin: (string, string) -> string, nodes: seq<Node>): (r: seq<Node>)
    ensures |r| == |nodes|
    ensures forall i :: 0 <= i < |nodes| ==> !Replaced(r[i])
    ensures forall i :: 0 <= i < |nodes| && !Replaced(nodes[i]) ==> r[i] == nodes[i]
    ensures forall i :: 0 <= i < |nodes| && Replaced(nodes[i]) ==>
              r[i] == Para(ImageText(nodes[i].alt, ResolvedSrc(page, nodes[i].src.value, urljoin)))
  {
    seq(|nodes|, i requires 0 <= i < |nodes| => Rewrite(page, urljoin, nodes[i]))
  }

  /** A second pass changes nothing. */
  lemma RewriteAllIdempotent(page: string, urljoin: (string, string) -> string, nodes: seq<Node>)
    ensures RewriteAll(page, urljoin, RewriteAll(page, urljoin, nodes)) == RewriteAll(page, urljoin, nodes)
  {
  }

  /** An absolute source appears verbatim in the paragraph; a relative
      one appears as resolved by `urljoin`; a missing `alt` reads `Image`. */
  lemma ReplacementText(page: string, urljoin: (string, string) -> string, src: string, alt: Option<string>)
    requires src != ""
    ensures IsAbsolute(src) ==> Rewrite(page, urljoin, Img(Some(src), alt)) == Para("![" + alt.GetOr("Image") + "](" + src + ")")
    ensures !IsAbsolute(src) ==> Rewrite(page, urljoin, Img(Some(src), alt)) == Para("![" + alt.GetOr("Image") + "](" + urljoin(page, src) + ")")
    ensures alt.None? ==> Rewrite(page, urljoin, Img(Some(src), alt)).text[..8] == "![Image]"
  {
    var t := Rewrite(page, urljoin, Img(Some(src), alt)).text;
    if alt.None? {
      assert t[..8] == ("![" + "Image" + "](")[..8];
    }
  }

  /** The `<img>` loop of `fetch_html`, on the parsed page in place. */
  method ReplaceImages(soup: array<Node>, url: string, urljoin: (string, string) -> string)
    modifies soup
    ensures soup[..] == RewriteAll(url, urljoin, old(soup[..]))
  {
    for i := 0 to soup.Length
      invariant forall j :: 0 <= j < i ==> soup[j] == Rewrite(url, urljoin, old(soup[j]))
      invariant forall j :: i <= j < soup.Length ==> soup[j] == old(soup[j])
    {
      var img := soup[i];
      if img.Img? && img.src.Some? {
        var src := img.src.value;
        var alt := img.alt.GetOr("Image");
        if src != "" {
          if !(StartsWith(src, "http://") || StartsWith(src, "https://")) {
            src := urljoin(url, src);
          }
          soup[i] := Para("![" + alt + "](" + src + ")");
        }
      }
    }
  }

  function FetchFailure(url: string, status: int): string
  {
    "Failed to fetch " + url + ". HTTP status code: " + IntToString(status)
  }

  /** What `fetch_html` yields: the exception `requests.get` raises
      (`response` is `Err` with its text), the error it raises itself on a
      status other than 200, `None` when parsing or writing the page fails
      (`parsed` is false), and otherwise the rewritten page it writes out. */
  function FetchHtml(url: string, response: Result<int>, parsed: bool, page: seq<Node>, urljoin: (string, string) -> string)
    : (r: Result<Option<seq<Node>>>)
    ensures response.Err? ==> r == Err(response.msg)
    ensures response.Ok? ==> (r.Err? <==> response.value != 200)
    ensures response.Ok? && response.value != 200 ==> r == Err(FetchFailure(url, response.value))
    ensures r == Ok(None) <==> response == Ok(200) && !parsed
    ensures response == Ok(200) && parsed ==> r == Ok(Some(RewriteAll(url, urljoin, page)))
  {
    match response
    case Err(e) => Err(e)
    case Ok(status) =>
      if status != 200 then Err(FetchFailure(url, status))
      else if !parsed then Ok(None)
      else Ok(Some(RewriteAll(url, urljoin, page)))
  }

  /** `fetch_html`. */
  method FetchHtmlInto(soup: array<Node>, url: string, response: Result<int>, parsed: bool, urljoin: (string, string) -> string)
    returns (r: Result<Option<seq<Node>>>)
    modifies soup
    ensures r == FetchHtml(url, response, parsed, old(soup[..]), urljoin)
  {
    if response.Err? {
      return Err(response.msg);
    }
    var status := response.value;
    if status != 200 {
      return Err("Failed to fetch " + url + ". HTTP status code: " + IntToString(status));
    }
    if !parsed {
      return Ok(None);
    }
    ReplaceImages(soup, url, urljoin);
    r := Ok(Some(soup[..]));
  }

  const DoclingFailure := "Failed to process website with Docling: "

  /** `web_sources/extracted_markdown/{document_id}/{domain}.md`. */
  function DoclingMarkdownKey(netloc: string, timestamp: string): (key: string)
    ensures EndsWith(key, "/" + WebDomain(netloc) + ".md")
  {
    var key := SourcesKey("web", "extracted_markdown", WebDocumentId(netloc, timestamp), WebDomain(netloc) + ".md");
    assert "/" + WebDomain(netloc) + ".md" == "/" + (WebDomain(netloc) + ".md");
    key
  }

  /** The dictionary `process_html_with_docling` returns. */
  function DoclingResponse(netloc: string, timestamp: string, markdownUrl: string): Value
  {
    Obj([("source_type", Str("web")),
         ("document_id", Str(WebDocumentId(netloc, timestamp))),
         ("urls", Obj([("markdown", Str(markdownUrl))])),
         ("metadata", Obj([("source_type", Str("web")),
                           ("domain", Str(WebDomain(netloc))),
                           ("content_type", Str("webpage")),
                           ("processor", Str("docling"))]))])
  }

  /** What `process_html_with_docling` returns or raises, and the puts it
      attempts; `convert` is the converter on the rewritten page (its error
      covers the empty result). */
  function ProcessDocling(ep: Endpoint, denied: map<string, string>, url: string, netloc: string, timestamp: string,
                          response: Result<int>, parsed: bool, page: seq<Node>, urljoin: (string, string) -> string,
                          convert: seq<Node> -> Result<string>)
    : (Result<Value>, seq<Put>)
  {
    match FetchHtml(url, response, parsed, page, urljoin)
    case Err(e) => (Err(DoclingFailure + e), [])
    case Ok(None) => (Err(DoclingFailure + "Failed to fetch HTML content"), [])
    case Ok(Some(html)) =>
      match convert(html)
      case Err(e) => (Err(DoclingFailure + e), [])
      case Ok(md) =>
        var key := DoclingMarkdownKey(netloc, timestamp);
        var puts := [Put(key, MarkdownObject(md))];
        if key in denied then (Err(DoclingFailure + MarkdownUploadError(denied[key])), puts)
        else (Ok(DoclingResponse(netloc, timestamp, ObjectUrl(ep, key))), puts)
  }

  /** On success exactly one object is written, the converter's Markdown of
      the rewritten page, and the response's only URL is that object's; a
      failed fetch writes nothing. */
  lemma DoclingContentIsStored(ep: Endpoint, denied: map<string, string>, url: string, netloc: string, timestamp: string,
                               response: Result<int>, parsed: bool, page: seq<Node>, urljoin: (string, string) -> string,
                               convert: seq<Node> -> Result<string>, objects0: map<string, StoredObject>)
    ensures var r := ProcessDocling(ep, denied, url, netloc, timestamp, response, parsed, page, urljoin, convert);
            && (response.Err? ==> r == (Err(DoclingFailure + response.msg), []))
            && (response.Ok? && response.value != 200 ==> r == (Err(DoclingFailure + FetchFailure(url, response.value)), []))
            && (r.0.Ok? ==>
                  && response == Ok(200) && parsed && convert(RewriteAll(url, urljoin, page)).Ok?
                  && var key := DoclingMarkdownKey(netloc, timestamp);
                     && r.0.value == DoclingResponse(netloc, timestamp, ObjectUrl(ep, key))
                     && key in Written(objects0, denied, r.1)
                     && Written(objects0, denied, r.1)[key] == MarkdownObject(convert(RewriteAll(url, urljoin, page)).value))
  {
    var r := ProcessDocling(ep, denied, url, netloc, timestamp, response, parsed, page, urljoin, convert);
    if r.0.Ok? {
      var key := DoclingMarkdownKey(netloc, timestamp);
      WrittenAppend(objects0, denied, [], r.1[0]);
      assert [] + [r.1[0]] == r.1;
    }
  }

  /** `process_html_with_docling`. */
  method ProcessHtmlWithDocling(bucket: Bucket, soup: array<Node>, url: string, netloc: string, timestamp: string,
                                response: Result<int>, parsed: bool, urljoin: (string, string) -> string,
                                convert: seq<Node> -> Result<string>)
    returns (r: Result<Value>)
    modifies bucket, soup
    ensures var out := ProcessDocling(bucket.endpoint, bucket.denied, url, netloc, timestamp, response, parsed,
                                      old(soup[..]), urljoin, convert);
            r == out.0 && bucket.objects == Written(old(bucket.objects), bucket.denied, out.1)
  {
    var html := FetchHtmlInto(soup, url, response, parsed, urljoin);
    if html.Err? {
      return Err(DoclingFailure + html.msg);
    }
    if html.value.None? {
      return Err(DoclingFailure + "Failed to fetch HTML content");
    }
    var converted := convert(html.value.value);
    if converted.Err? {
      return Err(DoclingFailure + converted.msg);
    }
    var markdownKey := DoclingMarkdownKey(netloc, timestamp);
    var markdownUrl := bucket.UploadMarkdownToS3(converted.value, markdownKey);
    WrittenAppend(old(bucket.objects), bucket.denied, [], Put(markdownKey, MarkdownObject(converted.value)));
    if markdownUrl.Err? {
      return Err(DoclingFailure + markdownUrl.msg);
    }
    r := Ok(DoclingResponse(netloc, timestamp, markdownUrl.value));
  }
}
