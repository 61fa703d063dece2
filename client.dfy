/** The Streamlit client's helpers (streamlit_app.py): the upload
    validator, the URL validator, the numbered image links and the name of
    the Markdown download. The PDF library's verdict on the upload and
    `urlparse` are inputs; page layout and styling are not modelled. */
module Client {
  import opened Values
  import opened Strings
  import opened Storage

  // ===========================================================================
  // validate_pdf_file

  const MaxFileSize: int := 10 * 1024 * 1024

  /** What the PDF library reports on opening the upload. */
  datatype PdfInfo = PdfInfo(pageCount: nat, needsPass: bool)

  /** An uploaded file: its size, its name and the outcome of opening it
      (the library's error text when it cannot be opened). */
  datatype Upload = Upload(size: int, name: string, pdf: Result<PdfInfo>)

  const NoFile := "No file uploaded"
  /** `f"File size exceeds {MAX_FILE_SIZE/1024/1024:.0f}MB limit"`. */
  const TooLarge := "File size exceeds 10MB limit"
  const NotPdf := "File must be a PDF"
  const EmptyPdf := "PDF file appears to be empty"
  const Protected := "Password-protected PDFs are not supported"
  const Corrupted := "Invalid or corrupted PDF file: "

  /** `validate_pdf_file`: the checks in order, the first failing one
      giving the message. */
  function ValidatePdfFile(f: Option<Upload>): (r: (bool, Option<string>))
    ensures r.0 <==> r.1.None?
    ensures r.0 <==> (&& f.Some? && f.value.size <= MaxFileSize && EndsWith(Lower(f.value.name), ".pdf")
                      && f.value.pdf.Ok? && f.value.pdf.value.pageCount > 0 && !f.value.pdf.value.needsPass)
  {
    if f.None? then (false, Some(NoFile))
    else if f.value.size > MaxFileSize then (false, Some(TooLarge))
    else if !EndsWith(Lower(f.value.name), ".pdf") then (false, Some(NotPdf))
    else
      match f.value.pdf
      case Err(e) => (false, Some(Corrupted + e))
      case Ok(info) =>
        if info.pageCount == 0 then (false, Some(EmptyPdf))
        else if info.needsPass then (false, Some(Protected))
        else (true, None)
  }

  /** Each failure is reported by the first check that fails, whatever the
      later checks would say. */
  lemma FirstFailureWins(f: Upload)
    ensures f.size > MaxFileSize ==> ValidatePdfFile(Some(f)) == (false, Some(TooLarge))
    ensures f.size <= MaxFileSize && !EndsWith(Lower(f.name), ".pdf") ==> ValidatePdfFile(Some(f)) == (false, Some(NotPdf))
    ensures f.size <= MaxFileSize && EndsWith(Lower(f.name), ".pdf") && f.pdf.Err? ==>
              ValidatePdfFile(Some(f)) == (false, Some(Corrupted + f.pdf.msg))
    ensures f.size <= MaxFileSize && EndsWith(Lower(f.name), ".pdf") && f.pdf.Ok? && f.pdf.value.pageCount == 0 ==>
              ValidatePdfFile(Some(f)) == (false, Some(EmptyPdf))
  {
  }

  /** A file of exactly the maximum size passes the size check. */
  lemma MaximumSizeAccepted(name: string, info: PdfInfo)
    requires EndsWith(Lower(name), ".pdf") && info.pageCount > 0 && !info.needsPass
    ensures ValidatePdfFile(Some(Upload(MaxFileSize, name, Ok(info)))) == (true, None)
    ensures ValidatePdfFile(Some(Upload(MaxFileSize + 1, name, Ok(info)))) == (false, Some(TooLarge))
  {
  }

  /** The extension check ignores case: any name ending in `.PDF` passes it. */
  lemma UpperCaseExtensionAccepted(stem: string)
    ensures EndsWith(Lower(stem + ".PDF"), ".pdf")
  {
    var s := stem + ".PDF";
    var r := Lower(s);
    var n := |stem|;
    assert s[n] == '.' && s[n + 1] == 'P' && s[n + 2] == 'D' && s[n + 3] == 'F';
    assert r[n] == '.' && r[n + 1] == 'p' && r[n + 2] == 'd' && r[n + 3] == 'f';
    assert r[n..] == ".pdf";
  }

  // ===========================================================================
  // is_valid_url

  /** `is_valid_url`, given what `urlparse` returns (scheme and netloc) or
      that it raised. */
  function IsValidUrl(parsed: Option<(string, string)>): (ok: bool)
    ensures ok ==> parsed.Some? && parsed.value.1 != ""
    ensures parsed.Some? && parsed.value.0 !in ["http", "https"] ==> !ok
    ensures parsed.Some? && parsed.value.0 in ["http", "https"] && parsed.value.1 != "" ==> ok
  {
    parsed.Some? && parsed.value.0 in ["http", "https"] && parsed.value.1 != ""
  }

  // ===========================================================================
  // create_image_links_container

  const LinksOpen := "<div class='image-scroll-container'>"
  const LinksClose := "</div>"

  const LinkStart := "\n            <a href=\""

  /** The anchor for link number `i`: it opens with the link target. */
  function LinkHtml(href: string, i: nat): (h: string)
    ensures StartsWith(h, LinkStart + href)
  {
    var h := LinkStart + href + "\" target=\"_blank\" class=\"image-link\">\n                \U{1F4F7} Image "
             + Digits(i) + "\n            </a>\n        ";
    assert h[..|LinkStart + href|] == LinkStart + href;
    h
  }

  /** The container's HTML after the anchors for `hrefs`, numbered from 1. */
  function OpenLinks(hrefs: seq<string>): string
  {
    if |hrefs| == 0 then LinksOpen else OpenLinks(hrefs[..|hrefs| - 1]) + LinkHtml(hrefs[|hrefs| - 1], |hrefs|)
  }

  lemma OpenLinksNext(hrefs: seq<string>, href: string)
    ensures OpenLinks(hrefs + [href]) == OpenLinks(hrefs) + LinkHtml(href, |hrefs| + 1)
  {
    assert (hrefs + [href])[..|hrefs|] == hrefs;
  }

  /** The complete container for `hrefs`. */
  function LinksContainer(hrefs: seq<string>): string
  {
    OpenLinks(hrefs) + LinksClose
  }

  /** The text an entry links to: a string itself, the first element of a
      list, an element popped from a set; `None` for what the loop cannot
      handle (an empty list or set raises, a nested dictionary is not
      modelled). */
  predicate Linkable(v: Value)
  {
    v.Str? || v.Int? || v.Bool? || (v.StrList? && |v.items| > 0) || (v.StrSet? && v.elems != {})
  }

  /** `str()` of a scalar entry. */
  function Shown(v: Value): string
    requires v.Str? || v.Int? || v.Bool?
  {
    match v
    case Str(s) => s
    case Int(i) => IntToString(i)
    case Bool(b) => if b then "True" else "False"
  }

  /** The image map of a result, whose set values the link loop pops from. */
  class ImageUrls {
    var entries: Dict<Value>

    constructor (entries: Dict<Value>)
      ensures this.entries == entries
    {
      this.entries := entries;
    }

    /** `create_image_links_container`: one link per entry, numbered 1, 2,
        ... in the map's order; a set entry gives up the element it links
        to. `styles` is the style sheet placed in front. When an entry
        cannot be linked the loop raises there, and the sets linked before
        it have already given up their elements. */
    method ImageLinks(styles: string) returns (r: Result<string>, ghost hrefs: seq<string>)
      modifies this
      ensures var out := old(entries);
              && (r.Ok? <==> forall k :: 0 <= k < |out| ==> Linkable(out[k].1))
              && (r.Ok? ==> && r.value == styles + LinksContainer(hrefs)
                            && LinkedAll(out, entries, hrefs))
              && (r.Err? ==> && |hrefs| < |out| && !Linkable(out[|hrefs|].1)
                             && LinkedPrefix(out, entries, hrefs, |hrefs|))
    {
      var es;
      r, es, hrefs := LinkEntries(entries);
      entries := es;
      if r.Ok? {
        r := Ok(styles + r.value);
      }
    }
  }

  /** Every entry linked, in order, to the matching target. */
  ghost predicate LinkedAll(before: Dict<Value>, after: Dict<Value>, hrefs: seq<string>)
  {
    && |after| == |before| && |hrefs| == |before|
    && forall k :: 0 <= k < |before| ==> Linked(before[k], after[k], hrefs[k])
  }

  /** The loop of `create_image_links_container` on the entries: the
      container's HTML, the entries afterwards and the link targets. */
  method LinkEntries(entries: Dict<Value>) returns (r: Result<string>, es: Dict<Value>, hrefs: seq<string>)
    ensures r.Ok? <==> forall k :: 0 <= k < |entries| ==> Linkable(entries[k].1)
    ensures r.Ok? ==> r.value == LinksContainer(hrefs) && LinkedAll(entries, es, hrefs)
    ensures r.Err? ==> |hrefs| < |entries| && !Linkable(entries[|hrefs|].1) && LinkedPrefix(entries, es, hrefs, |hrefs|)
  {
    es := entries;
    var linksHtml := LinksOpen;
    hrefs := [];
    for i := 0 to |entries|
      invariant LinkedPrefix(entries, es, hrefs, i)
      invariant linksHtml == OpenLinks(hrefs)
    {
      var entry := es[i];
      if !Linkable(entry.1) {
        assert entry == entries[i];
        return Err(Unlinkable(entry.1)), es, hrefs;
      }
      es, hrefs, linksHtml := LinkStep(entries, es, hrefs, linksHtml, i);
    }
    LinkedAllLinkable(entries, es, hrefs);
    r := Ok(linksHtml + LinksClose);
  }

  /** One iteration of the link loop, on an entry it can link. */
  method LinkStep(ghost entries: Dict<Value>, es: Dict<Value>, hrefs: seq<string>, linksHtml: string, i: nat)
    returns (es': Dict<Value>, hrefs': seq<string>, linksHtml': string)
    requires LinkedPrefix(entries, es, hrefs, i) && i < |entries| && Linkable(es[i].1)
    requires linksHtml == OpenLinks(hrefs)
    ensures LinkedPrefix(entries, es', hrefs', i + 1)
    ensures linksHtml' == OpenLinks(hrefs')
  {
    var imageUrl, after := LinkTarget(es[i]);
    LinkedPrefixNext(entries, es, hrefs, i, imageUrl, after);
    es' := es[i := after];
    OpenLinksNext(hrefs, imageUrl);
    linksHtml' := linksHtml + LinkHtml(imageUrl, i + 1);
    hrefs' := hrefs + [imageUrl];
  }

  /** The loop's state after `i` entries: those are linked, the rest untouched. */
  ghost predicate LinkedPrefix(entries: Dict<Value>, es: Dict<Value>, hrefs: seq<string>, i: nat)
  {
    && i <= |entries| && |es| == |entries| && |hrefs| == i
    && (forall k :: 0 <= k < i ==> Linked(entries[k], es[k], hrefs[k]))
    && (forall k :: i <= k < |es| ==> es[k] == entries[k])
  }

  lemma LinkedPrefixNext(entries: Dict<Value>, es: Dict<Value>, hrefs: seq<string>, i: nat,
                         href: string, after: (string, Value))
    requires LinkedPrefix(entries, es, hrefs, i) && i < |entries| && Linked(es[i], after, href)
    ensures LinkedPrefix(entries, es[i := after], hrefs + [href], i + 1)
  {
    var es', hrefs' := es[i := after], hrefs + [href];
    forall k | 0 <= k < i + 1 ensures Linked(entries[k], es'[k], hrefs'[k]) {
      if k < i {
        assert es'[k] == es[k] && hrefs'[k] == hrefs[k];
      } else {
        assert es'[k] == after && hrefs'[k] == href && entries[k] == es[i];
      }
    }
  }

  /** A linked entry was one the loop can link. */
  lemma LinkedAllLinkable(before: Dict<Value>, after: Dict<Value>, hrefs: seq<string>)
    requires LinkedAll(before, after, hrefs)
    ensures forall k :: 0 <= k < |before| ==> Linkable(before[k].1)
  {
    forall k | 0 <= k < |before| ensures Linkable(before[k].1) {
      assert Linked(before[k], after[k], hrefs[k]);
    }
  }

  /** The target of one entry and what the entry holds afterwards. */
  method LinkTarget(entry: (string, Value)) returns (href: string, after: (string, Value))
    requires Linkable(entry.1)
    ensures Linked(entry, after, href)
  {
    var v := entry.1;
    after := entry;
    if v.StrSet? {
      href :| href in v.elems;
      after := (entry.0, StrSet(v.elems - {href}));
    } else if v.StrList? {
      href := v.items[0];
    } else {
      href := Shown(v);
    }
  }

  /** The error raised on an entry the loop cannot link. */
  function Unlinkable(v: Value): string
  {
    if v.StrList? then "list index out of range"
    else if v.StrSet? then "'pop from an empty set'"
    else "nested dictionary entry"
  }

  /** Entry `before` became `after` and its link goes to `href`: a string
      links to itself, a list to its first element, a set to one of its
      elements, which it no longer holds. */
  ghost predicate Linked(before: (string, Value), after: (string, Value), href: string)
  {
    && after.0 == before.0
    && match before.1
       case StrSet(s) => href in s && after.1 == StrSet(s - {href})
       case StrList(l) => |l| > 0 && href == l[0] && after == before
       case Obj(_) => false
       case _ => href == Shown(before.1) && after == before
  }

  // ===========================================================================
  // display_processed_content

  /** The name of the Markdown download: the text after the last `/` of its
      URL, or a fixed name for an empty URL. */
  function DownloadFilename(mdUrl: string): (name: string)
    ensures '/' !in name || name == "extracted_content.md"
    ensures mdUrl != "" ==> EndsWith(mdUrl, name)
    ensures mdUrl != "" ==> |name| == |mdUrl| || mdUrl[|mdUrl| - |name| - 1] == '/'
  {
    if mdUrl == "" then "extracted_content.md" else LastPart(mdUrl, '/')
  }

  /** The download of a stored Markdown object is named as its file. */
  lemma DownloadIsNamedAsStored(ep: Endpoint, key: string, prefix: string, filename: string)
    requires key == prefix + "/" + filename && '/' !in filename
    ensures DownloadFilename(ObjectUrl(ep, key)) == filename
  {
    var url := ObjectUrl(ep, key);
    assert EndsWith(url, "/" + key);
    assert url[|url| - |filename| - 1] == '/' by {
      assert url[|url| - |"/" + key|..] == "/" + key;
      assert key[|key| - |filename| - 1] == '/';
    }
    assert url[|url| - |filename|..] == filename by {
      assert url[|url| - |"/" + key|..] == "/" + key;
      assert key[|key| - |filename|..] == filename;
    }
    LastPartAfter(url, '/', filename);
  }
}
