/** The enterprise web processor (backend/utils/web_processor_enterprise.py):
    a hosted crawler runs the page, its JSON items become Markdown, the
    images it lists are copied into the bucket and their references are
    rewritten to the bucket URLs. The crawler's run, its status answers, its
    result items and the image downloads are inputs. */
module WebEnterprise {
  import opened Values
  import opened Strings
  import opened Storage
  import opened DocumentIds

  // ===========================================================================
  // Crawl results

  /** One entry of an item's `extractedData`; an absent key is `None` (or an
      empty `rows`). */
  datatype Datum = Datum(kind: Option<string>, text: Option<string>, src: Option<string>,
                         href: Option<string>, rows: seq<seq<string>>)

  /** One result item; `hasTables` is the truth value of its `tables` entry. */
  datatype CrawlItem = CrawlItem(url: Option<string>, extractedData: seq<Datum>,
                                 pageTitle: Option<string>, hasTables: bool)

  // ===========================================================================
  // json_to_markdown

  function RowTexts(rows: seq<seq<string>>): (r: seq<string>)
    ensures |r| == |rows|
    ensures forall i :: 0 <= i < |rows| ==> r[i] == Join(rows[i], " | ")
  {
    seq(|rows|, i requires 0 <= i < |rows| => Join(rows[i], " | "))
  }

  /** The fragments of a crawled table: an empty line, the first row as
      header, one `---` per header cell, every other row and a newline; all
      without outer pipes, and nothing for a table without rows. */
  function TableLines(rows: seq<seq<string>>): (r: seq<string>)
    ensures |r| == if |rows| == 0 then 0 else |rows| + 3
    ensures |rows| > 0 ==> (&& r[0] == ""
                            && r[1] == Join(rows[0], " | ")
                            && r[2] == Join(Repeat("---", |rows[0]|), " | ")
                            && r[|r| - 1] == "\n"
                            && forall i :: 1 <= i < |rows| ==> r[i + 2] == Join(rows[i], " | "))
  {
    if |rows| == 0 then []
    else ["", Join(rows[0], " | "), Join(Repeat("---", |rows[0]|), " | ")] + RowTexts(rows[1..]) + ["\n"]
  }

  /** The fragments one datum adds: text and headings only when their
      stripped text is not empty (every heading at level two), images only
      with a non-empty `src`, links only with a non-empty `href`, tables as
      above, and nothing for any other type. */
  function DatumLines(d: Datum): seq<string>
  {
    var text := Strip(d.text.GetOr(""));
    if d.kind == Some("text") && text != "" then [text + "\n"]
    else if d.kind == Some("heading") && text != "" then ["## " + text + "\n"]
    else if d.kind == Some("image") then
      var src := Strip(d.src.GetOr(""));
      if src != "" then ["![Image](" + src + ")\n"] else []
    else if d.kind == Some("link") then
      var href := Strip(d.href.GetOr(""));
      var linkText := Strip(d.text.GetOr("No Text"));
      if href != "" then ["[" + linkText + "](" + href + ")\n"] else []
    else if d.kind == Some("table") then TableLines(d.rows)
    else []
  }

  /** What each kind of datum emits. */
  lemma DatumEmission(d: Datum)
    ensures d.kind !in {Some("text"), Some("heading"), Some("image"), Some("link"), Some("table")} ==> DatumLines(d) == []
    ensures d.kind in {Some("text"), Some("heading")} ==> (DatumLines(d) != [] <==> Strip(d.text.GetOr("")) != "")
    ensures d.kind == Some("heading") && DatumLines(d) != [] ==> DatumLines(d) == ["## " + Strip(d.text.GetOr("")) + "\n"]
    ensures d.kind == Some("image") ==> (DatumLines(d) != [] <==> Strip(d.src.GetOr("")) != "")
    ensures d.kind == Some("image") && DatumLines(d) != [] ==> DatumLines(d) == ["![Image](" + Strip(d.src.GetOr("")) + ")\n"]
    ensures d.kind == Some("link") ==> (DatumLines(d) != [] <==> Strip(d.href.GetOr("")) != "")
    ensures d.kind == Some("link") && DatumLines(d) != [] && d.text.None? ==>
              DatumLines(d) == ["[No Text](" + Strip(d.href.GetOr("")) + ")\n"]
    ensures d.kind == Some("table") ==> DatumLines(d) == TableLines(d.rows)
  {
    var noText := "No Text";
    assert !IsSpace(noText[0]) && !IsSpace(noText[|noText| - 1]);
    assert StripLeft(noText) == noText;
    assert Strip(noText) == noText;
    assert "[" + noText + "](" == "[No Text](";
  }

  function DataLines(data: seq<Datum>): seq<string>
  {
    if |data| == 0 then [] else DataLines(data[..|data| - 1]) + DatumLines(data[|data| - 1])
  }

  /** An item: its URL line (`No URL` when absent), its data, then `---`. */
  lemma DataLinesNext(data: seq<Datum>, k: nat)
    requires k < |data|
    ensures DataLines(data[..k + 1]) == DataLines(data[..k]) + DatumLines(data[k])
  {
    assert data[..k + 1][..k] == data[..k];
  }

  function ItemLines(item: CrawlItem): (r: seq<string>)
    ensures |r| >= 2 && r[0] == "**URL:** " + item.url.GetOr("No URL") + "\n" && r[|r| - 1] == "---"
  {
    ["**URL:** " + item.url.GetOr("No URL") + "\n"] + DataLines(item.extractedData) + ["---"]
  }

  function ResultsLines(items: seq<CrawlItem>): seq<string>
  {
    if |items| == 0 then [] else ResultsLines(items[..|items| - 1]) + ItemLines(items[|items| - 1])
  }

  /** The table branch of the datum loop. */
  method ConvertTable(rows: seq<seq<string>>) returns (lines: seq<string>)
    ensures lines == TableLines(rows)
  {
    lines := [];
    if |rows| > 0 {
      lines := lines + [""];
      var header := Join(rows[0], " | ");
      var separator := Join(Repeat("---", |rows[0]|), " | ");
      lines := lines + [header];
      lines := lines + [separator];
      ghost var head := lines;
      assert RowTexts(rows[1..1]) == [];
      for j := 1 to |rows|
        invariant lines == head + RowTexts(rows[1..j])
      {
        RowTextsNext(rows, j);
        lines := lines + [Join(rows[j], " | ")];
      }
      assert rows[1..|rows|] == rows[1..];
      lines := lines + ["\n"];
    }
  }

  /** One more row of the table body adds its joined text. */
  lemma RowTextsNext(rows: seq<seq<string>>, j: nat)
    requires 1 <= j < |rows|
    ensures RowTexts(rows[1..j + 1]) == RowTexts(rows[1..j]) + [Join(rows[j], " | ")]
  {
  }

  /** One pass of the inner loop of `json_to_markdown`. */
  method ConvertDatum(d: Datum) returns (lines: seq<string>)
    ensures lines == DatumLines(d)
  {
    var text := Strip(d.text.GetOr(""));
    if d.kind == Some("text") && text != "" {
      lines := [text + "\n"];
    } else if d.kind == Some("heading") && text != "" {
      lines := ["## " + text + "\n"];
    } else if d.kind == Some("image") {
      var src := Strip(d.src.GetOr(""));
      lines := if src != "" then ["![Image](" + src + ")\n"] else [];
    } else if d.kind == Some("link") {
      var href := Strip(d.href.GetOr(""));
      var linkText := Strip(d.text.GetOr("No Text"));
      lines := if href != "" then ["[" + linkText + "](" + href + ")\n"] else [];
    } else if d.kind == Some("table") {
      lines := ConvertTable(d.rows);
    } else {
      lines := [];
    }
  }

  /** The inner loop of `json_to_markdown`, over one item's data. */
  method ConvertData(data: seq<Datum>) returns (lines: seq<string>)
    ensures lines == DataLines(data)
  {
    lines := [];
    for k := 0 to |data|
      invariant lines == DataLines(data[..k])
    {
      DataLinesNext(data, k);
      var datumLines := ConvertDatum(data[k]);
      lines := lines + datumLines;
    }
    assert data[..|data|] == data;
  }

  method ConvertItem(item: CrawlItem) returns (lines: seq<string>)
    ensures lines == ItemLines(item)
  {
    var dataLines := ConvertData(item.extractedData);
    lines := ["**URL:** " + item.url.GetOr("No URL") + "\n"] + dataLines + ["---"];
  }

  /** `json_to_markdown`. */
  method JsonToMarkdown(items: seq<CrawlItem>) returns (md: string)
    ensures md == Join(ResultsLines(items), "\n")
  {
    var lines: seq<string> := [];
    for i := 0 to |items|
      invariant lines == ResultsLines(items[..i])
    {
      assert items[..i + 1][..i] == items[..i];
      var itemLines := ConvertItem(items[i]);
      lines := lines + itemLines;
    }
    assert items[..|items|] == items;
    md := Join(lines, "\n");
  }

  // ===========================================================================
  // replace_image_urls

  const ImageRefOpen := "![Image]("

  /** Where the lazy group `(.*?)\)` ends: the first `)` of `t`, provided no
      newline comes before it (`.` does not match a newline). */
  function CloseIndex(t: string): (r: Option<nat>)
    ensures r.Some? ==> (&& r.value < |t| && t[r.value] == ')'
                         && forall k :: 0 <= k < r.value ==> t[k] != ')' && t[k] != '\n')
    ensures r.None? ==> forall k :: 0 <= k < |t| && t[k] == ')' ==> '\n' in t[..k]
  {
    if |t| == 0 then None
    else if t[0] == ')' then Some(0)
    else if t[0] == '\n' then None
    else
      match CloseIndex(t[1..])
      case Some(j) => Some(j + 1)
      case None =>
        assert forall k :: 1 <= k < |t| && t[k] == ')' ==> '\n' in t[1..][..k - 1] ==> '\n' in t[..k];
        None
  }

  /** `re.sub(r"!\[Image\]\((.*?)\)", replace_match, s)` with `url_map` as
      `m`: scanning left to right, each reference is rewritten through the
      map (unmapped URLs stay) and scanning resumes after it; everything
      else is copied. */
  function Substitute(s: string, m: Dict<string>): string
    decreases |s|
  {
    if |s| == 0 then ""
    else if StartsWith(s, ImageRefOpen) && CloseIndex(s[9..]).Some? then
      var j := CloseIndex(s[9..]).value;
      var u := s[9..9 + j];
      ImageRefOpen + Get(m, u).GetOr(u) + ")" + Substitute(s[9 + j + 1..], m)
    else [s[0]] + Substitute(s[1..], m)
  }

  /** `dict(zip(original, updated))` for lists of equal length. */
  function ZipMap(original: seq<string>, updated: seq<string>): Dict<string>
    requires |original| == |updated|
  {
    if |original| == 0 then []
    else Set(ZipMap(original[..|original| - 1], updated[..|updated| - 1]), original[|original| - 1], updated[|updated| - 1])
  }

  /** `replace_image_urls`. */
  function ReplaceImageUrls(md: string, original: seq<string>, updated: seq<string>): (r: string)
    ensures |original| == 0 || |updated| == 0 || |original| != |updated| ==> r == md
  {
    if |original| == 0 || |updated| == 0 || |original| != |updated| then md
    else Substitute(md, ZipMap(original, updated))
  }

  /** Text without a `!` passes through unchanged, whatever follows it. */
  lemma {:induction false} SubstitutePlainPrefix(a: string, b: string, m: Dict<string>)
    requires '!' !in a
    ensures Substitute(a + b, m) == a + Substitute(b, m)
    decreases |a|
  {
    if |a| > 0 {
      var s := a + b;
      assert s[0] == a[0] != '!';
      assert !StartsWith(s, ImageRefOpen);
      assert s[1..] == a[1..] + b;
      SubstitutePlainPrefix(a[1..], b, m);
      assert a == [a[0]] + a[1..];
    } else {
      assert a + b == b;
    }
  }

  lemma CloseIndexOfReference(u: string, rest: string)
    requires ')' !in u && '\n' !in u
    ensures CloseIndex(u + ")" + rest) == Some(|u|)
    decreases |u|
  {
    if |u| > 0 {
      assert (u + ")" + rest)[1..] == u[1..] + ")" + rest;
      CloseIndexOfReference(u[1..], rest);
    }
  }

  /** A reference whose URL holds no `)` and no newline becomes its mapped
      URL (or stays when unmapped), and scanning resumes right after it. */
  lemma SubstituteReference(u: string, rest: string, m: Dict<string>)
    requires ')' !in u && '\n' !in u
    ensures Substitute(ImageRefOpen + u + ")" + rest, m) == ImageRefOpen + Get(m, u).GetOr(u) + ")" + Substitute(rest, m)
  {
    var s := ImageRefOpen + u + ")" + rest;
    ReferenceParts(u, rest);
    CloseIndexOfReference(u, rest);
    assert StartsWith(s, ImageRefOpen) && CloseIndex(s[9..]) == Some(|u|);
  }

  /** The pieces of a reference followed by more text. */
  lemma ReferenceParts(u: string, rest: string)
    ensures var s := ImageRefOpen + u + ")" + rest;
            && |s| >= 9 + |u| + 1 && s[..9] == ImageRefOpen && s[9..] == u + ")" + rest
            && s[9..9 + |u|] == u && s[9 + |u| + 1..] == rest
  {
    var s := ImageRefOpen + u + ")" + rest;
    assert s == ImageRefOpen + (u + ")" + rest);
    assert s[9..] == u + ")" + rest;
    assert (u + ")" + rest)[..|u|] == u;
    assert (u + ")" + rest)[|u| + 1..] == rest;
  }

  /** A matched reference splits its text into the opening, the URL, the
      `)` and what follows. */
  lemma MatchedParts(s: string, j: nat)
    requires StartsWith(s, ImageRefOpen) && CloseIndex(s[9..]) == Some(j)
    ensures 9 + j + 1 <= |s| && s == ImageRefOpen + s[9..9 + j] + ")" + s[9 + j + 1..]
  {
    assert s[9 + j] == ')';
    assert s == s[..9] + s[9..9 + j] + [s[9 + j]] + s[9 + j + 1..];
  }

  /** With an empty map every reference keeps its URL: the text is unchanged. */
  lemma {:induction false} SubstituteEmptyMap(s: string, m: Dict<string>)
    requires |m| == 0
    ensures Substitute(s, m) == s
    decreases |s|
  {
    if |s| > 0 {
      if StartsWith(s, ImageRefOpen) && CloseIndex(s[9..]).Some? {
        var j := CloseIndex(s[9..]).value;
        var u := s[9..9 + j];
        assert Get(m, u) == None;
        MatchedParts(s, j);
        SubstituteEmptyMap(s[9 + j + 1..], m);
      } else {
        SubstituteEmptyMap(s[1..], m);
        assert s == [s[0]] + s[1..];
      }
    }
  }

  /** A URL listed more than once maps to the updated URL of its last pairing. */
  lemma {:induction false} ZipMapLastWins(original: seq<string>, updated: seq<string>, i: nat)
    requires |original| == |updated| && i < |original|
    requires forall j :: i < j < |original| ==> original[j] != original[i]
    ensures Get(ZipMap(original, updated), original[i]) == Some(updated[i])
  {
    var n := |original|;
    var o', n' := original[..n - 1], updated[..n - 1];
    assert ZipMap(original, updated) == Set(ZipMap(o', n'), original[n - 1], updated[n - 1]);
    if i < n - 1 {
      assert o'[i] == original[i] && n'[i] == updated[i];
      assert original[n - 1] != original[i];
      ZipMapLastWins(o', n', i);
    }
  }

  /** Only listed URLs are mapped. */
  lemma {:induction false} ZipMapUnlisted(original: seq<string>, updated: seq<string>, u: string)
    requires |original| == |updated| && u !in original
    ensures Get(ZipMap(original, updated), u) == None
  {
    if |original| > 0 {
      var o' := original[..|original| - 1];
      assert u !in o';
      ZipMapUnlisted(o', updated[..|updated| - 1], u);
    }
  }

  // ===========================================================================
  // Image lists and downloads

  /** `[data["src"] for data in item.get("extractedData", []) if data.get("type") == "image"]`;
      `None` is the `KeyError` of an image entry without `src`. */
  function ItemImageSources(data: seq<Datum>): (r: Option<seq<string>>)
    ensures r.Some? ==> |r.value| <= |data|
  {
    if |data| == 0 then Some([])
    else
      var last := data[|data| - 1];
      match ItemImageSources(data[..|data| - 1])
      case None => None
      case Some(srcs) =>
        if last.kind != Some("image") then Some(srcs)
        else if last.src.None? then None
        else Some(srcs + [last.src.value])
  }

  /** `original_images`: the sources of every image entry of every item, in order. */
  function ImageSources(items: seq<CrawlItem>): Option<seq<string>>
  {
    if |items| == 0 then Some([])
    else
      match ImageSources(items[..|items| - 1])
      case None => None
      case Some(srcs) =>
        match ItemImageSources(items[|items| - 1].extractedData)
        case None => None
        case Some(more) => Some(srcs + more)
  }

  const KeyErrorSrc := "'src'"

  /** What a download attempt needs: the bucket's endpoint and refusals, the
      key prefix, and the HTTP download (`requests.get` after
      `raise_for_status`). */
  datatype DownloadCtx = DownloadCtx(ep: Endpoint, denied: map<string, string>, prefix: string,
                                     download: string -> Result<Bytes>)

  /** `{s3_key_prefix}/{os.path.basename(img_url)}`. */
  function EnterpriseImageKey(prefix: string, imgUrl: string): string
  {
    prefix + "/" + Basename(imgUrl)
  }

  /** `image_name.split('.')[-1].lower()`. */
  function EnterpriseImageExt(imgUrl: string): (ext: string)
    ensures '.' !in ext
  {
    LastPartLowerNoDot(Basename(imgUrl));
    Lower(LastPart(Basename(imgUrl), '.'))
  }

  lemma LastPartLowerNoDot(name: string)
    ensures '.' !in Lower(LastPart(name, '.'))
  {
    var p := LastPart(name, '.');
    var l := Lower(p);
    forall k | 0 <= k < |l| ensures l[k] != '.' {
      assert l[k] == LowerChar(p[k]);
    }
  }

  /** The image is downloaded and the store accepts its key. */
  predicate Copied(c: DownloadCtx, imgUrl: string)
  {
    c.download(imgUrl).Ok? && EnterpriseImageKey(c.prefix, imgUrl) !in c.denied
  }

  /** `images_path` so far, every put attempted, and whether a `KeyError` ended the loop. */
  datatype Downloads = Downloads(uploaded: seq<string>, puts: seq<Put>, keyError: bool)

  function DownloadStep(c: DownloadCtx, s: Downloads, imgUrl: string): Downloads
  {
    match c.download(imgUrl)
    case Err(_) => s
    case Ok(bytes) =>
      var key := EnterpriseImageKey(c.prefix, imgUrl);
      var put := Put(key, ImageObject(bytes, EnterpriseImageExt(imgUrl)));
      if key in c.denied then s.(puts := s.puts + [put])
      else s.(uploaded := s.uploaded + [ObjectUrl(c.ep, key)], puts := s.puts + [put])
  }

  function DownloadFrom(c: DownloadCtx, s: Downloads, urls: seq<string>): (r: Downloads)
    ensures r.keyError == s.keyError
  {
    if |urls| == 0 then s else DownloadStep(c, DownloadFrom(c, s, urls[..|urls| - 1]), urls[|urls| - 1])
  }

  /** `download_images_to_s3`, item by item. */
  function DownloadItems(c: DownloadCtx, items: seq<CrawlItem>): Downloads
  {
    if |items| == 0 then Downloads([], [], false)
    else
      var prev := DownloadItems(c, items[..|items| - 1]);
      if prev.keyError then prev
      else
        match ItemImageSources(items[|items| - 1].extractedData)
        case None => prev.(keyError := true)
        case Some(urls) => DownloadFrom(c, prev, urls)
  }

  lemma {:induction false} DownloadFromConcat(c: DownloadCtx, s: Downloads, a: seq<string>, b: seq<string>)
    ensures DownloadFrom(c, s, a + b) == DownloadFrom(c, DownloadFrom(c, s, a), b)
    decreases |b|
  {
    if |b| == 0 {
      assert a + b == a;
    } else {
      assert (a + b)[..|a + b| - 1] == a + b[..|b| - 1];
      DownloadFromConcat(c, s, a, b[..|b| - 1]);
    }
  }

  /** When every image entry has a `src`, the item-by-item loop is one pass
      over `original_images`, and no `KeyError` is raised. */
  lemma {:induction false} DownloadItemsFlat(c: DownloadCtx, items: seq<CrawlItem>)
    requires ImageSources(items).Some?
    ensures DownloadItems(c, items) == DownloadFrom(c, Downloads([], [], false), ImageSources(items).value)
  {
    if |items| > 0 {
      var init := items[..|items| - 1];
      DownloadItemsFlat(c, init);
      var more := ItemImageSources(items[|items| - 1].extractedData).value;
      DownloadFromConcat(c, Downloads([], [], false), ImageSources(init).value, more);
    }
  }

  /** `ImageSources` is `None` exactly when some image entry has no `src`,
      and then the download loop raises too. */
  lemma {:induction false} DownloadItemsKeyError(c: DownloadCtx, items: seq<CrawlItem>)
    ensures DownloadItems(c, items).keyError <==> ImageSources(items).None?
  {
    if |items| > 0 {
      DownloadItemsKeyError(c, items[..|items| - 1]);
    }
  }

  /** `images_path` is the bucket URL of every copied image, in the order
      the images were listed; the others are left out. */
  function CopiedUrls(c: DownloadCtx, urls: seq<string>): seq<string>
  {
    if |urls| == 0 then [] else CopiedUrls(c, urls[..|urls| - 1]) + CopiedUrl(c, urls[|urls| - 1])
  }

  /** The bucket URL of one image if it is copied, and nothing otherwise. */
  function CopiedUrl(c: DownloadCtx, imgUrl: string): seq<string>
  {
    if Copied(c, imgUrl) then [ObjectUrl(c.ep, EnterpriseImageKey(c.prefix, imgUrl))] else []
  }

  /** One step lists the image's bucket URL exactly when it is copied. */
  lemma DownloadStepUploaded(c: DownloadCtx, s: Downloads, imgUrl: string)
    ensures DownloadStep(c, s, imgUrl).uploaded
            == s.uploaded + if Copied(c, imgUrl) then [ObjectUrl(c.ep, EnterpriseImageKey(c.prefix, imgUrl))] else []
  {
    if !Copied(c, imgUrl) {
      assert s.uploaded + [] == s.uploaded;
    }
  }

  lemma {:induction false} DownloadFromKeepsCopied(c: DownloadCtx, s: Downloads, urls: seq<string>)
    ensures DownloadFrom(c, s, urls).uploaded == s.uploaded + CopiedUrls(c, urls)
  {
    if |urls| > 0 {
      var init, last := urls[..|urls| - 1], urls[|urls| - 1];
      DownloadFromKeepsCopied(c, s, init);
      DownloadFromLast(c, s, urls);
    }
  }

  /** The last image adds its bucket URL to the downloads exactly when it
      is copied. */
  lemma DownloadFromLast(c: DownloadCtx, s: Downloads, urls: seq<string>)
    requires |urls| > 0
    ensures DownloadFrom(c, s, urls).uploaded
            == DownloadFrom(c, s, urls[..|urls| - 1]).uploaded + CopiedUrl(c, urls[|urls| - 1])
  {
    DownloadStepUploaded(c, DownloadFrom(c, s, urls[..|urls| - 1]), urls[|urls| - 1]);
  }

  /** Every listed image is copied exactly when the uploaded list is as long
      as the listed one. */
  lemma {:induction false} CopiedUrlsAll(c: DownloadCtx, urls: seq<string>)
    ensures |CopiedUrls(c, urls)| <= |urls|
    ensures |CopiedUrls(c, urls)| == |urls| <==> forall i :: 0 <= i < |urls| ==> Copied(c, urls[i])
  {
    if |urls| > 0 {
      var init, last := urls[..|urls| - 1], urls[|urls| - 1];
      CopiedUrlsAll(c, init);
      assert |CopiedUrls(c, urls)| == |CopiedUrls(c, init)| + |CopiedUrl(c, last)|;
      AllLast(u => Copied(c, u), urls, init);
    }
  }

  /** All elements pass a test exactly when all but the last do and the last does. */
  lemma AllLast<T>(test: T -> bool, xs: seq<T>, init: seq<T>)
    requires |xs| > 0 && init == xs[..|xs| - 1]
    ensures (forall i :: 0 <= i < |xs| ==> test(xs[i]))
            <==> (forall i :: 0 <= i < |init| ==> test(init[i])) && test(xs[|xs| - 1])
  {
    assert forall i :: 0 <= i < |init| ==> init[i] == xs[i];
  }

  /** One image of the download loop. */
  method DownloadImage(bucket: Bucket, c: DownloadCtx, imgUrl: string, s: Downloads,
                       ghost objects0: map<string, StoredObject>)
    returns (s': Downloads)
    requires bucket.endpoint == c.ep && bucket.denied == c.denied
    requires bucket.objects == Written(objects0, c.denied, s.puts)
    modifies bucket
    ensures s' == DownloadStep(c, s, imgUrl)
    ensures bucket.objects == Written(objects0, c.denied, s'.puts)
  {
    s' := s;
    var response := c.download(imgUrl);
    if response.Err? {
      return;
    }
    var imageName := Basename(imgUrl);
    var key := c.prefix + "/" + imageName;
    var ext := Lower(LastPart(imageName, '.'));
    var uploaded := bucket.UploadImageToS3(response.value, key, ext);
    WrittenAppend(objects0, c.denied, s.puts, Put(key, ImageObject(response.value, ext)));
    s' := s'.(puts := s.puts + [Put(key, ImageObject(response.value, ext))]);
    if uploaded.Ok? {
      s' := s'.(uploaded := s.uploaded + [uploaded.value]);
    }
  }

  /** The inner loop of `download_images_to_s3`, over one item's images. */
  method DownloadImages(bucket: Bucket, c: DownloadCtx, urls: seq<string>, s: Downloads,
                        ghost objects0: map<string, StoredObject>)
    returns (s': Downloads)
    requires bucket.endpoint == c.ep && bucket.denied == c.denied
    requires bucket.objects == Written(objects0, c.denied, s.puts)
    modifies bucket
    ensures s' == DownloadFrom(c, s, urls)
    ensures bucket.objects == Written(objects0, c.denied, s'.puts)
  {
    s' := s;
    for i := 0 to |urls|
      invariant s' == DownloadFrom(c, s, urls[..i])
      invariant bucket.objects == Written(objects0, c.denied, s'.puts)
    {
      assert urls[..i + 1][..i] == urls[..i];
      s' := DownloadImage(bucket, c, urls[i], s', objects0);
    }
    assert urls[..|urls|] == urls;
  }

  /** `download_images_to_s3`: `r` is `images_path`, or the `KeyError`
      message when an image entry has no `src`. */
  method DownloadImagesToS3(bucket: Bucket, items: seq<CrawlItem>, prefix: string, download: string -> Result<Bytes>)
    returns (r: Result<seq<string>>, ghost puts: seq<Put>)
    modifies bucket
    ensures var d := DownloadItems(DownloadCtx(bucket.endpoint, bucket.denied, prefix, download), items);
            && r == (if d.keyError then Err(KeyErrorSrc) else Ok(d.uploaded))
            && puts == d.puts
    ensures bucket.objects == Written(old(bucket.objects), bucket.denied, puts)
  {
    var c := DownloadCtx(bucket.endpoint, bucket.denied, prefix, download);
    var s := Downloads([], [], false);
    for i := 0 to |items|
      invariant s == DownloadItems(c, items[..i]) && !s.keyError
      invariant bucket.objects == Written(old(bucket.objects), c.denied, s.puts)
    {
      assert items[..i + 1][..i] == items[..i];
      var images := ItemImageSources(items[i].extractedData);
      if images.None? {
        DownloadItemsStopped(c, items, i + 1);
        return Err(KeyErrorSrc), s.puts;
      }
      s := DownloadImages(bucket, c, images.value, s, old(bucket.objects));
    }
    assert items[..|items|] == items;
    r, puts := Ok(s.uploaded), s.puts;
  }

  /** Once a `KeyError` is raised, later items change nothing. */
  lemma {:induction false} DownloadItemsStopped(c: DownloadCtx, items: seq<CrawlItem>, i: nat)
    requires i <= |items| && DownloadItems(c, items[..i]).keyError
    ensures DownloadItems(c, items) == DownloadItems(c, items[..i])
    decreases |items| - i
  {
    if i < |items| {
      assert items[..i + 1][..i] == items[..i];
      DownloadItemsStopped(c, items, i + 1);
    } else {
      assert items[..i] == items;
    }
  }

  // ===========================================================================
  // wait_for_actor_completion

  /** After the given status answers: the run succeeded, the call raised
      (`Actor run failed!` or a failed request), or the loop is still
      polling. */
  datatype Poll = Succeeded | Failed(msg: string) | StillRunning

  const ActorFailed := "Actor run failed!"

  /** Answers that keep the loop polling. */
  predicate KeepsPolling(statuses: seq<Result<string>>)
  {
    forall k :: 0 <= k < |statuses| ==> statuses[k].Ok? && statuses[k].value != "SUCCEEDED" && statuses[k].value != "FAILED"
  }

  function PollResult(statuses: seq<Result<string>>): Poll
  {
    if |statuses| == 0 then StillRunning
    else
      match statuses[0]
      case Err(m) => Failed(m)
      case Ok(status) =>
        if status == "SUCCEEDED" then Succeeded
        else if status == "FAILED" then Failed(ActorFailed)
        else PollResult(statuses[1..])
  }

  /** The loop stops at the first `SUCCEEDED`, raises at the first `FAILED`
      or failed request, and polls on through anything else. */
  lemma {:induction false} PollResultMeaning(statuses: seq<Result<string>>)
    ensures PollResult(statuses) == StillRunning <==> KeepsPolling(statuses)
    ensures PollResult(statuses) == Succeeded <==>
              exists i :: 0 <= i < |statuses| && statuses[i] == Ok("SUCCEEDED") && KeepsPolling(statuses[..i])
    ensures PollResult(statuses).Failed? ==>
              exists i :: 0 <= i < |statuses| && KeepsPolling(statuses[..i])
                && (statuses[i] == Err(PollResult(statuses).msg)
                    || (statuses[i] == Ok("FAILED") && PollResult(statuses).msg == ActorFailed))
  {
    if |statuses| > 0 {
      var rest := statuses[1..];
      PollResultMeaning(rest);
      assert statuses[..0] == [];
      if statuses[0].Ok? && statuses[0].value != "SUCCEEDED" && statuses[0].value != "FAILED" {
        KeepsPollingShift(statuses);
        if PollResult(rest) == Succeeded {
          var i :| 0 <= i < |rest| && rest[i] == Ok("SUCCEEDED") && KeepsPolling(rest[..i]);
          assert statuses[i + 1] == rest[i];
        }
        if PollResult(statuses) == Succeeded {
          var i :| 0 <= i < |statuses| && statuses[i] == Ok("SUCCEEDED") && KeepsPolling(statuses[..i]);
          assert i > 0;
          assert rest[i - 1] == statuses[i];
        }
        if PollResult(rest).Failed? {
          var i :| 0 <= i < |rest| && KeepsPolling(rest[..i])
                   && (rest[i] == Err(PollResult(rest).msg)
                       || (rest[i] == Ok("FAILED") && PollResult(rest).msg == ActorFailed));
          assert statuses[i + 1] == rest[i];
        }
      } else {
        assert !KeepsPolling(statuses);
      }
    }
  }

  /** Past a status that keeps the loop polling, every prefix keeps polling
      exactly when the same prefix of the remaining answers does. */
  lemma KeepsPollingShift(statuses: seq<Result<string>>)
    requires |statuses| > 0 && statuses[0].Ok?
    requires statuses[0].value != "SUCCEEDED" && statuses[0].value != "FAILED"
    ensures KeepsPolling(statuses) <==> KeepsPolling(statuses[1..])
    ensures forall i :: 0 < i <= |statuses| ==> (KeepsPolling(statuses[..i]) <==> KeepsPolling(statuses[1..][..i - 1]))
  {
    var rest := statuses[1..];
    if KeepsPolling(rest) {
      forall k | 1 <= k < |statuses| ensures statuses[k] == rest[k - 1] { }
    }
    forall i | 0 < i <= |statuses|
      ensures KeepsPolling(statuses[..i]) <==> KeepsPolling(rest[..i - 1])
    {
      assert forall k :: 1 <= k < i ==> statuses[..i][k] == rest[..i - 1][k - 1];
    }
  }

  /** `wait_for_actor_completion` over the answers of its successive requests. */
  method WaitForActorCompletion(statuses: seq<Result<string>>) returns (p: Poll)
    ensures p == PollResult(statuses)
  {
    var i := 0;
    while i < |statuses|
      invariant 0 <= i <= |statuses|
      invariant PollResult(statuses) == PollResult(statuses[i..])
    {
      assert statuses[i..][1..] == statuses[i + 1..];
      var response := statuses[i];
      if response.Err? {
        return Failed(response.msg);
      }
      if response.value == "SUCCEEDED" {
        return Succeeded;
      } else if response.value == "FAILED" {
        return Failed(ActorFailed);
      }
      i := i + 1;
    }
    return StillRunning;
  }

  // ===========================================================================
  // scrape_website_with_pdf

  /** What the crawler does: the start request (run id and dataset id),
      the status answers, the result items and the image downloads. */
  datatype Crawl = Crawl(start: Result<(string, string)>, statuses: seq<Result<string>>,
                         results: Result<seq<CrawlItem>>, download: string -> Result<Bytes>)

  const WebFailure := "Failed to process website: "

  function EnterpriseMarkdownKey(documentId: string): string
  {
    "web_sources/extracted_markdown/" + documentId + ".md"
  }

  function EnterpriseImagePrefix(documentId: string): string
  {
    "web_sources/extracted_images/" + documentId
  }

  /** `results[0].get("pageTitle", domain) if results else domain`. */
  function Title(items: seq<CrawlItem>, domain: string): string
  {
    if |items| > 0 then items[0].pageTitle.GetOr(domain) else domain
  }

  predicate HasTables(items: seq<CrawlItem>)
  {
    exists i :: 0 <= i < |items| && items[i].hasTables
  }

  /** The dictionary `scrape_website_with_pdf` returns. */
  function EnterpriseResponse(url: string, timestamp: string, netloc: string, markdownUrl: string,
                              items: seq<CrawlItem>, newImages: seq<string>): Value
  {
    var domain := WebDomain(netloc);
    Obj([("source_type", Str("web")),
         ("document_id", Str(WebDocumentId(netloc, timestamp))),
         ("urls", Obj([("markdown", Str(markdownUrl)), ("images", StrList(newImages))])),
         ("metadata", Obj([("source_type", Str("web")),
                           ("source_url", Str(url)),
                           ("processing_date", Str(timestamp)),
                           ("content_type", Str("webpage")),
                           ("domain", Str(domain)),
                           ("title", Str(Title(items, domain))),
                           ("has_tables", Bool(HasTables(items))),
                           ("image_count", Int(|newImages|)),
                           ("images", StrList(newImages))]))])
  }

  /** What `scrape_website_with_pdf` does once the crawler's items are in,
      and every put it attempts. */
  function ConvertAndStore(ep: Endpoint, denied: map<string, string>, url: string, netloc: string,
                           timestamp: string, items: seq<CrawlItem>, download: string -> Result<Bytes>)
    : (Result<Value>, seq<Put>)
  {
    var documentId := WebDocumentId(netloc, timestamp);
    var md := Join(ResultsLines(items), "\n");
    match ImageSources(items)
    case None => (Err(WebFailure + KeyErrorSrc), [])
    case Some(original) =>
      var c := DownloadCtx(ep, denied, EnterpriseImagePrefix(documentId), download);
      var d := DownloadFrom(c, Downloads([], [], false), original);
      var key := EnterpriseMarkdownKey(documentId);
      var puts := d.puts + [Put(key, MarkdownObject(ReplaceImageUrls(md, original, d.uploaded)))];
      if key in denied then (Err(WebFailure + MarkdownUploadError(denied[key])), puts)
      else (Ok(EnterpriseResponse(url, timestamp, netloc, ObjectUrl(ep, key), items, d.uploaded)), puts)
  }

  /** What `scrape_website_with_pdf` returns or raises (`None` while the
      crawler is still running after the given answers), and every put it
      attempts. */
  function ScrapeWithPdf(ep: Endpoint, denied: map<string, string>, url: string, netloc: string,
                         timestamp: string, crawl: Crawl): (Option<Result<Value>>, seq<Put>)
  {
    if crawl.start.Err? then (Some(Err(WebFailure + crawl.start.msg)), [])
    else
      match PollResult(crawl.statuses)
      case StillRunning => (None, [])
      case Failed(m) => (Some(Err(WebFailure + m)), [])
      case Succeeded =>
        match crawl.results
        case Err(m) => (Some(Err(WebFailure + m)), [])
        case Ok(items) =>
          var r := ConvertAndStore(ep, denied, url, netloc, timestamp, items, crawl.download);
          (Some(r.0), r.1)
  }

  /** Any listed image that is not copied leaves every reference of the
      stored Markdown pointing at its original URL. */
  lemma OneFailureSkipsRewrite(ep: Endpoint, denied: map<string, string>, url: string, netloc: string,
                               timestamp: string, crawl: Crawl, items: seq<CrawlItem>, i: nat)
    requires crawl.start.Ok? && PollResult(crawl.statuses) == Succeeded && crawl.results == Ok(items)
    requires ImageSources(items).Some? && i < |ImageSources(items).value|
    requires !Copied(DownloadCtx(ep, denied, EnterpriseImagePrefix(WebDocumentId(netloc, timestamp)), crawl.download),
                     ImageSources(items).value[i])
    ensures var puts := ScrapeWithPdf(ep, denied, url, netloc, timestamp, crawl).1;
            |puts| > 0 && puts[|puts| - 1] == Put(EnterpriseMarkdownKey(WebDocumentId(netloc, timestamp)),
                                                  MarkdownObject(Join(ResultsLines(items), "\n")))
  {
    var original := ImageSources(items).value;
    var c := DownloadCtx(ep, denied, EnterpriseImagePrefix(WebDocumentId(netloc, timestamp)), crawl.download);
    var d := DownloadFrom(c, Downloads([], [], false), original);
    DownloadFromKeepsCopied(c, Downloads([], [], false), original);
    CopiedUrlsAll(c, original);
    assert |d.uploaded| != |original|;
  }

  /** The part of `scrape_website_with_pdf` after the crawl. */
  method ConvertAndStoreItems(bucket: Bucket, url: string, netloc: string, timestamp: string,
                              items: seq<CrawlItem>, download: string -> Result<Bytes>)
    returns (r: Result<Value>)
    modifies bucket
    ensures r == ConvertAndStore(bucket.endpoint, bucket.denied, url, netloc, timestamp, items, download).0
    ensures bucket.objects == Written(old(bucket.objects), bucket.denied,
                                      ConvertAndStore(bucket.endpoint, bucket.denied, url, netloc, timestamp, items, download).1)
  {
    var domain := ReplaceChar(netloc, '.', '_');
    var documentId := domain + "_" + timestamp;
    assert documentId == WebDocumentId(netloc, timestamp);
    var markdownKey := EnterpriseMarkdownKey(documentId);
    var imagesPrefix := EnterpriseImagePrefix(documentId);
    var md := JsonToMarkdown(items);
    var original := ImageSources(items);
    if original.None? {
      return Err(WebFailure + KeyErrorSrc);
    }
    ghost var c := DownloadCtx(bucket.endpoint, bucket.denied, imagesPrefix, download);
    DownloadItemsFlat(c, items);
    var newImages, puts := DownloadImagesToS3(bucket, items, imagesPrefix, download);
    var updated := ReplaceImageUrls(md, original.value, newImages.value);
    var markdownUrl := bucket.UploadMarkdownToS3(updated, markdownKey);
    WrittenAppend(old(bucket.objects), bucket.denied, puts, Put(markdownKey, MarkdownObject(updated)));
    if markdownUrl.Err? {
      return Err(WebFailure + markdownUrl.msg);
    }
    r := Ok(EnterpriseResponse(url, timestamp, netloc, markdownUrl.value, items, newImages.value));
  }

  /** `scrape_website_with_pdf` once the crawler's requests are given. */
  method ScrapeWebsiteWithPdf(bucket: Bucket, url: string, netloc: string, timestamp: string, crawl: Crawl)
    returns (r: Option<Result<Value>>)
    modifies bucket
    ensures r == ScrapeWithPdf(bucket.endpoint, bucket.denied, url, netloc, timestamp, crawl).0
    ensures bucket.objects == Written(old(bucket.objects), bucket.denied,
                                      ScrapeWithPdf(bucket.endpoint, bucket.denied, url, netloc, timestamp, crawl).1)
  {
    if crawl.start.Err? {
      return Some(Err(WebFailure + crawl.start.msg));
    }
    var status := WaitForActorCompletion(crawl.statuses);
    if status.StillRunning? {
      return None;
    } else if status.Failed? {
      return Some(Err(WebFailure + status.msg));
    }
    if crawl.results.Err? {
      return Some(Err(WebFailure + crawl.results.msg));
    }
    var result := ConvertAndStoreItems(bucket, url, netloc, timestamp, crawl.results.value, crawl.download);
    r := Some(result);
  }
}
