/** The open-source PDF processor (backend/utils/pdf_processor_open_source.py):
    per page, the tables the PDF library found, then the page's images
    uploaded one by one, then the text blocks outside every table, then a
    horizontal rule. The PDF library's view of each page is an input. */
module PdfOpenSource {
  import opened Values
  import opened Strings
  import opened Storage

  // ===========================================================================
  // What the PDF library reports

  /** A rectangle `(x0, y0, x1, y1)` with real coordinates. */
  datatype Rect = Rect(x0: real, y0: real, x1: real, y1: real)
  {
    predicate IsEmpty()
    {
      x0 >= x1 || y0 >= y1
    }
  }

  /** Two rectangles intersect when both are non-empty and their interiors
      overlap. This is the predicate the model uses for `Rect.intersects`;
      the PDF library's treatment of touching edges is not modelled. */
  predicate Intersects(a: Rect, b: Rect)
  {
    !a.IsEmpty() && !b.IsEmpty() && a.x0 < b.x1 && b.x0 < a.x1 && a.y0 < b.y1 && b.y0 < a.y1
  }

  /** A detected table: its bounding box and what `extract()` gives, a grid
      of cells that are text or `None`. */
  datatype PdfTable = PdfTable(bbox: Rect, cells: seq<seq<Option<string>>>)

  /** One entry of `get_text("blocks")`: the block's rectangle and its text. */
  datatype TextBlock = TextBlock(rect: Rect, text: string)

  /** What `extract_image` gives for one image of the page. */
  datatype PdfImage = PdfImage(data: Bytes, ext: string)

  datatype PdfPage = PdfPage(tables: seq<PdfTable>, images: seq<PdfImage>, blocks: seq<TextBlock>)

  // ===========================================================================
  // Tables

  /** `str(cell)`: `None` prints as `None`. */
  function CellText(c: Option<string>): string
  {
    match c
    case None => "None"
    case Some(s) => s
  }

  function CellTexts(row: seq<Option<string>>): (r: seq<string>)
    ensures |r| == |row|
    ensures forall i :: 0 <= i < |row| ==> r[i] == CellText(row[i])
  {
    seq(|row|, i requires 0 <= i < |row| => CellText(row[i]))
  }

  /** `'| ' + ' | '.join(str(cell) for cell in row) + ' |'`. */
  function GridLine(row: seq<Option<string>>): string
  {
    "| " + Join(CellTexts(row), " | ") + " |"
  }

  function GridLines(rows: seq<seq<Option<string>>>): (lines: seq<string>)
    ensures |lines| == |rows|
    ensures forall i :: 0 <= i < |rows| ==> lines[i] == GridLine(rows[i])
  {
    seq(|rows|, i requires 0 <= i < |rows| => GridLine(rows[i]))
  }

  /** The fragments one extracted grid adds: none for an empty grid, else
      the first row as header, one `---` per header cell, every other row,
      and a closing newline. */
  function GridFragments(cells: seq<seq<Option<string>>>): (r: seq<string>)
    ensures |r| == if |cells| == 0 then 0 else |cells| + 2
    ensures |cells| > 0 ==> (r[0] == "\n" + GridLine(cells[0])
                             && r[1] == "| " + Join(Repeat("---", |cells[0]|), " | ") + " |"
                             && r[|r| - 1] == "\n"
                             && forall i :: 1 <= i < |cells| ==> r[i + 1] == GridLine(cells[i]))
  {
    if |cells| == 0 then []
    else ["\n" + GridLine(cells[0]), "| " + Join(Repeat("---", |cells[0]|), " | ") + " |"] + GridLines(cells[1..]) + ["\n"]
  }

  /** The fragments of all tables of a page, in order. */
  function TablesFragments(tables: seq<PdfTable>): seq<string>
  {
    if |tables| == 0 then [] else TablesFragments(tables[..|tables| - 1]) + GridFragments(tables[|tables| - 1].cells)
  }

  lemma TablesNext(tables: seq<PdfTable>, i: nat)
    requires i < |tables|
    ensures TablesFragments(tables[..i + 1]) == TablesFragments(tables[..i]) + GridFragments(tables[i].cells)
    ensures TableAreas(tables[..i + 1]) == TableAreas(tables[..i]) + [tables[i].bbox]
  {
    assert tables[..i + 1][..i] == tables[..i];
    assert tables[..i + 1][i] == tables[i];
  }

  /** The table boxes text is excluded from: every detected table's, whether or not it rendered. */
  function TableAreas(tables: seq<PdfTable>): (areas: seq<Rect>)
    ensures |areas| == |tables|
    ensures forall k :: 0 <= k < |tables| ==> areas[k] == tables[k].bbox
  {
    if |tables| == 0 then [] else TableAreas(tables[..|tables| - 1]) + [tables[|tables| - 1].bbox]
  }

  // ===========================================================================
  // Text blocks

  predicate InTable(r: Rect, areas: seq<Rect>)
  {
    exists k :: 0 <= k < |areas| && Intersects(r, areas[k])
  }

  /** The text fragments of the blocks that intersect no table box, in order. */
  function KeptBlocks(blocks: seq<TextBlock>, areas: seq<Rect>): (r: seq<string>)
    ensures |r| <= |blocks|
  {
    if |blocks| == 0 then []
    else
      var last := blocks[|blocks| - 1];
      KeptBlocks(blocks[..|blocks| - 1], areas) + (if InTable(last.rect, areas) then [] else [last.text + "\n\n"])
  }

  /** Blocks are filtered one by one: splitting the page's blocks anywhere
      splits the kept fragments at the same place. */
  lemma {:induction false} KeptBlocksConcat(a: seq<TextBlock>, b: seq<TextBlock>, areas: seq<Rect>)
    ensures KeptBlocks(a + b, areas) == KeptBlocks(a, areas) + KeptBlocks(b, areas)
    decreases |b|
  {
    if |b| == 0 {
      assert a + b == a;
    } else {
      var b' := b[..|b| - 1];
      assert (a + b)[..|a + b| - 1] == a + b';
      assert (a + b)[|a + b| - 1] == b[|b| - 1];
      KeptBlocksConcat(a, b', areas);
    }
  }

  /** A block yields its text and a blank line exactly when its rectangle
      meets no table box. */
  lemma KeptBlocksOne(blk: TextBlock, areas: seq<Rect>)
    ensures KeptBlocks([blk], areas) == if InTable(blk.rect, areas) then [] else [blk.text + "\n\n"]
  {
    assert [blk][..0] == [];
  }

  /** The inner loop with `break`: is the block inside some table box? */
  method BlockInTable(rect: Rect, areas: seq<Rect>) returns (inTable: bool)
    ensures inTable <==> InTable(rect, areas)
  {
    inTable := false;
    for k := 0 to |areas|
      invariant forall j :: 0 <= j < k ==> !Intersects(rect, areas[j])
    {
      if Intersects(rect, areas[k]) {
        inTable := true;
        break;
      }
    }
  }

  method KeepBlocks(blocks: seq<TextBlock>, areas: seq<Rect>) returns (fragments: seq<string>)
    ensures fragments == KeptBlocks(blocks, areas)
  {
    fragments := [];
    for i := 0 to |blocks|
      invariant fragments == KeptBlocks(blocks[..i], areas)
    {
      assert blocks[..i + 1][..i] == blocks[..i];
      var inTable := BlockInTable(blocks[i].rect, areas);
      if !inTable {
        fragments := fragments + [blocks[i].text + "\n\n"];
      }
    }
    assert blocks[..|blocks|] == blocks;
  }

  /** With no table on the page every block is kept, in order. */
  lemma {:induction false} NoTablesKeepsAllBlocks(blocks: seq<TextBlock>)
    ensures KeptBlocks(blocks, []) == seq(|blocks|, i requires 0 <= i < |blocks| => blocks[i].text + "\n\n")
  {
    if |blocks| > 0 {
      NoTablesKeepsAllBlocks(blocks[..|blocks| - 1]);
    }
  }

  /** Nothing of a page's text survives exactly when every block meets a table box. */
  lemma {:induction false} KeptBlocksEmptyIff(blocks: seq<TextBlock>, areas: seq<Rect>)
    ensures KeptBlocks(blocks, areas) == [] <==> forall i :: 0 <= i < |blocks| ==> InTable(blocks[i].rect, areas)
  {
    if |blocks| > 0 {
      var init := blocks[..|blocks| - 1];
      KeptBlocksEmptyIff(init, areas);
      assert forall i :: 0 <= i < |init| ==> init[i] == blocks[i];
      if KeptBlocks(init, areas) != [] {
        var i :| 0 <= i < |init| && !InTable(init[i].rect, areas);
        assert !InTable(blocks[i].rect, areas);
      }
    }
  }

  /** A table whose grid came back empty renders nothing but still hides
      the text blocks its box meets. */
  lemma {:induction false} EmptyGridStillExcludes(tables: seq<PdfTable>, k: nat, b: TextBlock)
    requires k < |tables| && tables[k].cells == [] && Intersects(b.rect, tables[k].bbox)
    ensures GridFragments(tables[k].cells) == []
    ensures KeptBlocks([b], TableAreas(tables)) == []
  {
    assert Intersects(b.rect, TableAreas(tables)[k]);
    assert [b][..0] == [];
  }

  // ===========================================================================
  // Images

  /** The key of image `n` of page `p` in `image_urls`: `p{p}_{n}`. */
  function ImageMapKey(p: nat, n: nat): string
  {
    "p" + Digits(p) + "_" + Digits(n)
  }

  /** `image_p{p}_{n}.{ext}`. */
  function PdfImageFileName(p: nat, n: nat, ext: string): string
  {
    "image_p" + Digits(p) + "_" + Digits(n) + "." + ext
  }

  /** Distinct (page, position) pairs get distinct map keys. */
  lemma ImageMapKeyInjective(p: nat, n: nat, p': nat, n': nat)
    requires ImageMapKey(p, n) == ImageMapKey(p', n')
    ensures p == p' && n == n'
  {
    var dp, dn, dp', dn' := Digits(p), Digits(n), Digits(p'), Digits(n');
    assert '_' !in dp by {
      assert forall i :: 0 <= i < |dp| ==> IsDigit(dp[i]);
    }
    assert '_' !in dp' by {
      assert forall i :: 0 <= i < |dp'| ==> IsDigit(dp'[i]);
    }
    assert ImageMapKey(p, n)[1..] == dp + ['_'] + dn;
    assert ImageMapKey(p', n')[1..] == dp' + ['_'] + dn';
    SplitAtFirst(dp, dn, dp', dn', '_');
    DigitsInjective(p, p');
    DigitsInjective(n, n');
  }

  /** `pdf_sources/extracted_images/{document_id}/image_p{p}_{n}.{ext}`. */
  function PdfImageKey(documentId: string, p: nat, n: nat, ext: string): string
  {
    SourcesKey("pdf", "extracted_images", documentId, PdfImageFileName(p, n, ext))
  }

  datatype PdfCtx = PdfCtx(ep: Endpoint, denied: map<string, string>, documentId: string)

  /** What the loop has built: Markdown fragments, `image_urls`,
      `tables_found` and every put attempted. */
  datatype PdfScan = PdfScan(md: seq<string>, images: Dict<Value>, tables: nat, puts: seq<Put>)

  /** Image `n` of page `p`: uploaded, then listed and referenced; a refused
      upload is skipped. */
  function ImageStep(c: PdfCtx, p: nat, n: nat, img: PdfImage, s: PdfScan): (r: PdfScan)
    ensures r.tables == s.tables
  {
    var key := PdfImageKey(c.documentId, p, n, img.ext);
    var puts := s.puts + [Put(key, ImageObject(img.data, img.ext))];
    if key in c.denied then s.(puts := puts)
    else
      var url := ObjectUrl(c.ep, key);
      PdfScan(s.md + ["\n![Image " + Digits(p) + "-" + Digits(n) + "](" + url + ")\n"],
              Set(s.images, ImageMapKey(p, n), Str(url)), s.tables, puts)
  }

  /** The image loop of page `p`. */
  function AddImages(c: PdfCtx, p: nat, imgs: seq<PdfImage>, s: PdfScan): (r: PdfScan)
    ensures r.tables == s.tables
  {
    if |imgs| == 0 then s
    else ImageStep(c, p, |imgs|, imgs[|imgs| - 1], AddImages(c, p, imgs[..|imgs| - 1], s))
  }

  /** Page `p` (1-based): tables, images, kept text blocks, then the rule. */
  function AfterPage(c: PdfCtx, p: nat, page: PdfPage, s: PdfScan): (r: PdfScan)
    ensures r.tables == s.tables + |page.tables|
  {
    var s1 := s.(md := s.md + TablesFragments(page.tables), tables := s.tables + |page.tables|);
    var s2 := AddImages(c, p, page.images, s1);
    s2.(md := s2.md + KeptBlocks(page.blocks, TableAreas(page.tables)) + ["\n---\n"])
  }

  function ProcessPages(c: PdfCtx, pages: seq<PdfPage>, s: PdfScan): PdfScan
  {
    if |pages| == 0 then s
    else AfterPage(c, |pages|, pages[|pages| - 1], ProcessPages(c, pages[..|pages| - 1], s))
  }

  // ---------------------------------------------------------------------------
  // What the page loop counts

  /** `tables_found`: every table the library detected, rendered or not. */
  function TableCount(pages: seq<PdfPage>): nat
  {
    if |pages| == 0 then 0 else TableCount(pages[..|pages| - 1]) + |pages[|pages| - 1].tables|
  }

  /** How many of page `p`'s images the store accepts. */
  function AcceptedImages(c: PdfCtx, p: nat, imgs: seq<PdfImage>): nat
  {
    if |imgs| == 0 then 0
    else AcceptedImages(c, p, imgs[..|imgs| - 1])
         + (if PdfImageKey(c.documentId, p, |imgs|, imgs[|imgs| - 1].ext) in c.denied then 0 else 1)
  }

  /** How many images of the whole document the store accepts. */
  function AcceptedCount(c: PdfCtx, pages: seq<PdfPage>): nat
  {
    if |pages| == 0 then 0
    else AcceptedCount(c, pages[..|pages| - 1]) + AcceptedImages(c, |pages|, pages[|pages| - 1].images)
  }

  /** Every key of `image_urls` names an image before image `n` of page `p`. */
  ghost predicate KeysBefore(images: Dict<Value>, p: nat, n: nat)
  {
    forall j :: 0 <= j < |images| ==> EarlierKey(images[j].0, p, n)
  }

  /** `k` is the key of an image before image `n` of page `p`. */
  ghost predicate EarlierKey(k: string, p: nat, n: nat)
  {
    exists q: nat, m: nat :: k == ImageMapKey(q, m) && (q < p || (q == p && m < n))
  }

  lemma KeysBeforeLater(images: Dict<Value>, p: nat, n: nat, p': nat, n': nat)
    requires KeysBefore(images, p, n) && (p < p' || (p == p' && n <= n'))
    ensures KeysBefore(images, p', n')
  {
    forall j | 0 <= j < |images|
      ensures EarlierKey(images[j].0, p', n')
    {
      var q: nat, m: nat :| images[j].0 == ImageMapKey(q, m) && (q < p || (q == p && m < n));
      assert images[j].0 == ImageMapKey(q, m) && (q < p' || (q == p' && m < n'));
    }
  }

  /** An accepted image gets a fresh key, so `image_urls` grows by one entry. */
  lemma ImageStepAppends(c: PdfCtx, p: nat, n: nat, img: PdfImage, s: PdfScan)
    requires KeysBefore(s.images, p, n) && UniqueKeys(s.images)
    ensures var r := ImageStep(c, p, n, img, s);
            && KeysBefore(r.images, p, n + 1) && UniqueKeys(r.images)
            && |r.images| == |s.images| + (if PdfImageKey(c.documentId, p, n, img.ext) in c.denied then 0 else 1)
  {
    var r := ImageStep(c, p, n, img, s);
    KeysBeforeLater(s.images, p, n, p, n + 1);
    if PdfImageKey(c.documentId, p, n, img.ext) !in c.denied {
      var k := ImageMapKey(p, n);
      if HasKey(s.images, k) {
        var j :| 0 <= j < |s.images| && s.images[j].0 == k;
        var q: nat, m: nat :| s.images[j].0 == ImageMapKey(q, m) && (q < p || (q == p && m < n));
        ImageMapKeyInjective(q, m, p, n);
      }
      assert r.images == s.images + [(k, r.images[|s.images|].1)];
      forall j | 0 <= j < |r.images|
        ensures EarlierKey(r.images[j].0, p, n + 1)
      {
        if j == |s.images| {
          assert r.images[j].0 == ImageMapKey(p, n);
        } else {
          assert r.images[j] == s.images[j];
        }
      }
    }
  }

  lemma {:induction false} AddImagesAppends(c: PdfCtx, p: nat, imgs: seq<PdfImage>, s: PdfScan)
    requires KeysBefore(s.images, p, 1) && UniqueKeys(s.images)
    ensures var r := AddImages(c, p, imgs, s);
            && KeysBefore(r.images, p, |imgs| + 1) && UniqueKeys(r.images)
            && |r.images| == |s.images| + AcceptedImages(c, p, imgs)
  {
    if |imgs| > 0 {
      AddImagesAppends(c, p, imgs[..|imgs| - 1], s);
      ImageStepAppends(c, p, |imgs|, imgs[|imgs| - 1], AddImages(c, p, imgs[..|imgs| - 1], s));
    }
  }

  /** `tables_found` counts every detected table, and `image_count` every
      accepted image: no entry of `image_urls` is ever overwritten. */
  lemma AfterPageCounts(c: PdfCtx, p: nat, page: PdfPage, s: PdfScan)
    requires KeysBefore(s.images, p, 0) && UniqueKeys(s.images)
    ensures var r := AfterPage(c, p, page, s);
            && KeysBefore(r.images, p + 1, 0) && UniqueKeys(r.images)
            && |r.images| == |s.images| + AcceptedImages(c, p, page.images)
  {
    KeysBeforeLater(s.images, p, 0, p, 1);
    var s1 := s.(md := s.md + TablesFragments(page.tables), tables := s.tables + |page.tables|);
    AddImagesAppends(c, p, page.images, s1);
    var s2 := AddImages(c, p, page.images, s1);
    assert AfterPage(c, p, page, s).images == s2.images;
    KeysBeforeLater(s2.images, p, |page.images| + 1, p + 1, 0);
  }

  /** `tables_found` counts every detected table, and `image_count` every
      accepted image: no entry of `image_urls` is ever overwritten. */
  lemma {:induction false} ProcessPagesCounts(c: PdfCtx, pages: seq<PdfPage>, s: PdfScan)
    requires s.images == []
    ensures var r := ProcessPages(c, pages, s);
            && r.tables == s.tables + TableCount(pages)
            && KeysBefore(r.images, |pages| + 1, 0) && UniqueKeys(r.images)
            && |r.images| == AcceptedCount(c, pages)
  {
    if |pages| > 0 {
      ProcessPagesCounts(c, pages[..|pages| - 1], s);
      AfterPageCounts(c, |pages|, pages[|pages| - 1], ProcessPages(c, pages[..|pages| - 1], s));
    }
  }

  const PdfFailure := "Failed to process PDF: "

  /** The dictionary `process_pdf_with_open_source` returns. */
  function PdfResponse(documentId: string, filename: string, markdownUrl: string, images: Dict<Value>, tables: nat): Value
  {
    Obj([("source_type", Str("pdf")),
         ("document_id", Str(documentId)),
         ("urls", Obj([("markdown", Str(markdownUrl)), ("images", Obj(images))])),
         ("metadata", Obj([("source_type", Str("pdf")),
                           ("original_filename", Str(filename)),
                           ("content_type", Str("document")),
                           ("image_count", Int(|images|)),
                           ("tables_found", Int(tables))]))])
  }

  function PdfMarkdownKey(documentId: string, filename: string): string
  {
    SourcesKey("pdf", "extracted_markdown", documentId, Stem(filename) + ".md")
  }

  /** What `process_pdf_with_open_source` returns or raises, and every put it
      attempts; `pages` is the opened document or the library's error. */
  function ProcessPdf(ep: Endpoint, denied: map<string, string>, pages: Result<seq<PdfPage>>,
                      documentId: string, filename: string): (Result<Value>, seq<Put>)
  {
    match pages
    case Err(m) => (Err(PdfFailure + m), [])
    case Ok(ps) =>
      var s := ProcessPages(PdfCtx(ep, denied, documentId), ps, PdfScan([], [], 0, []));
      var key := PdfMarkdownKey(documentId, filename);
      var puts := s.puts + [Put(key, MarkdownObject(Join(s.md, "\n")))];
      if key in denied then (Err(PdfFailure + MarkdownUploadError(denied[key])), puts)
      else (Ok(PdfResponse(documentId, filename, ObjectUrl(ep, key), s.images, s.tables)), puts)
  }

  /** On success the response carries the URL of the Markdown key, the
      image map and the table count the page loop built (what those hold is
      `ProcessPagesCounts`), and the bucket holds the joined Markdown at
      that key. */
  lemma PdfContentIsStored(ep: Endpoint, denied: map<string, string>, pages: seq<PdfPage>,
                           documentId: string, filename: string, objects0: map<string, StoredObject>)
    requires ProcessPdf(ep, denied, Ok(pages), documentId, filename).0.Ok?
    ensures var c := PdfCtx(ep, denied, documentId);
            var s := ProcessPages(c, pages, PdfScan([], [], 0, []));
            var key := PdfMarkdownKey(documentId, filename);
            var out := ProcessPdf(ep, denied, Ok(pages), documentId, filename);
            var puts := out.1;
            && out.0.value == PdfResponse(documentId, filename, ObjectUrl(ep, key), s.images, s.tables)
            && key in Written(objects0, denied, puts)
            && Written(objects0, denied, puts)[key] == MarkdownObject(Join(s.md, "\n"))
  {
    var c := PdfCtx(ep, denied, documentId);
    var s := ProcessPages(c, pages, PdfScan([], [], 0, []));
    var key := PdfMarkdownKey(documentId, filename);
    var mdPut := Put(key, MarkdownObject(Join(s.md, "\n")));
    var r := ProcessPdf(ep, denied, Ok(pages), documentId, filename);
    assert r == (Ok(PdfResponse(documentId, filename, ObjectUrl(ep, key), s.images, s.tables)), s.puts + [mdPut]);
    WrittenAppend(objects0, denied, s.puts, mdPut);
  }

  // ---------------------------------------------------------------------------
  // The loops

  /** The rendering of one extracted grid. */
  method RenderGrid(cells: seq<seq<Option<string>>>) returns (fragments: seq<string>)
    ensures fragments == GridFragments(cells)
  {
    fragments := [];
    if |cells| > 0 {
      var header := cells[0];
      fragments := fragments + ["\n| " + Join(CellTexts(header), " | ") + " |"];
      fragments := fragments + ["| " + Join(Repeat("---", |header|), " | ") + " |"];
      ghost var head := ["\n" + GridLine(header), "| " + Join(Repeat("---", |header|), " | ") + " |"];
      assert GridLines(cells[1..1]) == [];
      assert "\n| " + Join(CellTexts(header), " | ") + " |" == "\n" + GridLine(header);
      assert fragments == head + GridLines(cells[1..1]);
      for j := 1 to |cells|
        invariant fragments == head + GridLines(cells[1..j])
      {
        assert GridLines(cells[1..j + 1]) == GridLines(cells[1..j]) + [GridLine(cells[j])];
        fragments := fragments + ["| " + Join(CellTexts(cells[j]), " | ") + " |"];
      }
      assert cells[1..|cells|] == cells[1..];
      fragments := fragments + ["\n"];
    }
  }

  /** The table loop of one page: fragments, the exclusion boxes and the count. */
  method RenderTables(tables: seq<PdfTable>) returns (fragments: seq<string>, areas: seq<Rect>, found: nat)
    ensures fragments == TablesFragments(tables) && areas == TableAreas(tables) && found == |tables|
  {
    fragments, areas, found := [], [], 0;
    for i := 0 to |tables|
      invariant fragments == TablesFragments(tables[..i])
      invariant areas == TableAreas(tables[..i]) && found == i
    {
      TablesNext(tables, i);
      found := found + 1;
      var grid := RenderGrid(tables[i].cells);
      fragments := fragments + grid;
      areas := areas + [tables[i].bbox];
    }
    assert tables[..|tables|] == tables;
  }

  /** The image loop of page `p`. */
  method UploadImages(bucket: Bucket, c: PdfCtx, p: nat, imgs: seq<PdfImage>, s: PdfScan,
                      ghost objects0: map<string, StoredObject>)
    returns (md: seq<string>, images: Dict<Value>, puts: seq<Put>)
    requires bucket.endpoint == c.ep && bucket.denied == c.denied
    requires bucket.objects == Written(objects0, c.denied, s.puts)
    modifies bucket
    ensures AddImages(c, p, imgs, s) == PdfScan(md, images, s.tables, puts)
    ensures bucket.objects == Written(objects0, c.denied, puts)
  {
    md, images, puts := s.md, s.images, s.puts;
    for i := 0 to |imgs|
      invariant AddImages(c, p, imgs[..i], s) == PdfScan(md, images, s.tables, puts)
      invariant bucket.objects == Written(objects0, c.denied, puts)
    {
      assert imgs[..i + 1][..i] == imgs[..i];
      var img := imgs[i];
      var key := PdfImageKey(c.documentId, p, i + 1, img.ext);
      var uploaded := bucket.UploadImageToS3(img.data, key, img.ext);
      WrittenAppend(objects0, c.denied, puts, Put(key, ImageObject(img.data, img.ext)));
      puts := puts + [Put(key, ImageObject(img.data, img.ext))];
      if uploaded.Ok? {
        images := Set(images, ImageMapKey(p, i + 1), Str(uploaded.value));
        md := md + ["\n![Image " + Digits(p) + "-" + Digits(i + 1) + "](" + uploaded.value + ")\n"];
      }
    }
    assert imgs[..|imgs|] == imgs;
  }

  /** One iteration of the page loop. */
  method ProcessPage(bucket: Bucket, c: PdfCtx, p: nat, page: PdfPage, s: PdfScan,
                     ghost objects0: map<string, StoredObject>)
    returns (s': PdfScan)
    requires bucket.endpoint == c.ep && bucket.denied == c.denied
    requires bucket.objects == Written(objects0, c.denied, s.puts)
    modifies bucket
    ensures s' == AfterPage(c, p, page, s)
    ensures bucket.objects == Written(objects0, c.denied, s'.puts)
  {
    var fragments, areas, found := RenderTables(page.tables);
    var s1 := s.(md := s.md + fragments, tables := s.tables + found);
    var md, images, puts := UploadImages(bucket, c, p, page.images, s1, objects0);
    var text := KeepBlocks(page.blocks, areas);
    s' := PdfScan(md + text + ["\n---\n"], images, s1.tables, puts);
  }

  /** The page loop of `process_pdf_with_open_source`. */
  method ProcessAllPages(bucket: Bucket, c: PdfCtx, ps: seq<PdfPage>) returns (s: PdfScan)
    requires bucket.endpoint == c.ep && bucket.denied == c.denied
    modifies bucket
    ensures s == ProcessPages(c, ps, PdfScan([], [], 0, []))
    ensures bucket.objects == Written(old(bucket.objects), bucket.denied, s.puts)
  {
    s := PdfScan([], [], 0, []);
    ghost var s0 := s;
    for i := 0 to |ps|
      invariant s == ProcessPages(c, ps[..i], s0)
      invariant bucket.objects == Written(old(bucket.objects), bucket.denied, s.puts)
    {
      assert ps[..i + 1][..i] == ps[..i];
      s := ProcessPage(bucket, c, i + 1, ps[i], s, old(bucket.objects));
    }
    assert ps[..|ps|] == ps;
  }

  /** `process_pdf_with_open_source` once the library has opened the
      document (`pages` is its error otherwise). */
  method ProcessPdfWithOpenSource(bucket: Bucket, pages: Result<seq<PdfPage>>, documentId: string, filename: string)
    returns (r: Result<Value>)
    modifies bucket
    ensures r == ProcessPdf(bucket.endpoint, bucket.denied, pages, documentId, filename).0
    ensures bucket.objects == Written(old(bucket.objects), bucket.denied,
                                      ProcessPdf(bucket.endpoint, bucket.denied, pages, documentId, filename).1)
  {
    if pages.Err? {
      return Err(PdfFailure + pages.msg);
    }
    var s := ProcessAllPages(bucket, PdfCtx(bucket.endpoint, bucket.denied, documentId), pages.value);
    var key := PdfMarkdownKey(documentId, filename);
    var uploaded := bucket.UploadMarkdownToS3(Join(s.md, "\n"), key);
    WrittenAppend(old(bucket.objects), bucket.denied, s.puts, Put(key, MarkdownObject(Join(s.md, "\n"))));
    if uploaded.Err? {
      return Err(PdfFailure + uploaded.msg);
    }
    r := Ok(PdfResponse(documentId, filename, uploaded.value, s.images, s.tables));
  }
}
