/** The enterprise PDF processor (backend/utils/pdf_processor_enterprise.py):
    the layout service's pages and tables fill a page-keyed `content_map`,
    the PDF library's images are uploaded and referenced on their page, and
    the pages are concatenated in ascending page number. The service's
    analysis and the library's images are inputs. */
module PdfEnterprise {
  import opened Values
  import opened Strings
  import opened Storage
  import opened PdfOpenSource

  // ===========================================================================
  // What the layout service reports

  /** A page: its number, the text `f"{page.width} x {page.height}"` (float
      formatting is not modelled) and the content of its lines. */
  datatype AzurePage = AzurePage(pageNumber: int, dimensions: string, lines: seq<string>)

  datatype AzureCell = AzureCell(rowIndex: int, content: string)

  /** A table: `row_count`, its cells in order and the page number of each
      of its bounding regions. */
  datatype AzureTable = AzureTable(rowCount: nat, cells: seq<AzureCell>, regionPages: seq<int>)

  datatype Analysis = Analysis(pages: seq<AzurePage>, tables: seq<AzureTable>)

  /** One record of `content_map`. */
  datatype PageContent = PageContent(text: string, tables: seq<string>, images: seq<string>)

  type ContentMap = map<int, PageContent>

  // ===========================================================================
  // Page text

  function PageHeading(n: int): string
  {
    "## Page " + IntToString(n) + "\n\n"
  }

  /** `text` with each line appended, each followed by a blank line. */
  function LineBlocks(text: string, lines: seq<string>): (r: string)
    ensures StartsWith(r, text)
  {
    if |lines| == 0 then text
    else
      var r := LineBlocks(text, lines[..|lines| - 1]) + lines[|lines| - 1] + "\n\n";
      assert r[..|text|] == LineBlocks(text, lines[..|lines| - 1])[..|text|];
      r
  }

  /** Appending lines in two batches is appending them all, in order. */
  lemma {:induction false} LineBlocksConcat(text: string, a: seq<string>, b: seq<string>)
    ensures LineBlocks(text, a + b) == LineBlocks(LineBlocks(text, a), b)
    decreases |b|
  {
    if |b| == 0 {
      assert a + b == a;
    } else {
      var b' := b[..|b| - 1];
      assert (a + b)[..|a + b| - 1] == a + b';
      assert (a + b)[|a + b| - 1] == b[|b| - 1];
      LineBlocksConcat(text, a, b');
    }
  }

  /** A single line is appended followed by a blank line. */
  lemma LineBlocksOne(text: string, line: string)
    ensures LineBlocks(text, [line]) == text + line + "\n\n"
  {
    assert [line][..0] == [];
  }

  /** The `text` of a page record: heading, dimensions, and the lines under
      `**Text Content:**` only when the page has lines. */
  function PageText(p: AzurePage): (t: string)
    ensures StartsWith(t, PageHeading(p.pageNumber))
  {
    var head := PageHeading(p.pageNumber) + "**Page Dimensions:** " + p.dimensions + "\n\n";
    assert head[..|PageHeading(p.pageNumber)|] == PageHeading(p.pageNumber);
    if |p.lines| > 0 then
      var t := LineBlocks(head + "**Text Content:**\n\n", p.lines);
      assert t[..|head|] == (head + "**Text Content:**\n\n")[..|head|];
      t
    else head
  }

  /** `content_map` after the page loop: one fresh record per page, a
      repeated page number starting its record over. */
  function ContentMapOf(pages: seq<AzurePage>): (m: ContentMap)
    ensures forall i :: 0 <= i < |pages| ==> pages[i].pageNumber in m
  {
    PageRecords(pages, PageText)
  }

  /** The page loop with the record text given by `text`. */
  function PageRecords(pages: seq<AzurePage>, text: AzurePage -> string): (m: ContentMap)
    ensures forall i :: 0 <= i < |pages| ==> pages[i].pageNumber in m
  {
    if |pages| == 0 then map[]
    else
      var init := pages[..|pages| - 1];
      var last := pages[|pages| - 1];
      var m := PageRecords(init, text)[last.pageNumber := PageContent(text(last), [], [])];
      assert forall i :: 0 <= i < |init| ==> init[i] == pages[i];
      m
  }

  /** The records are exactly those of the listed page numbers. */
  lemma {:induction false} ContentMapKeys(pages: seq<AzurePage>, text: AzurePage -> string)
    ensures forall n :: n in PageRecords(pages, text) <==> exists i :: 0 <= i < |pages| && pages[i].pageNumber == n
  {
    if |pages| > 0 {
      var init := pages[..|pages| - 1];
      ContentMapKeys(init, text);
      assert PageRecords(pages, text).Keys == PageRecords(init, text).Keys + {pages[|pages| - 1].pageNumber};
      forall n | n in PageRecords(pages, text) ensures exists i :: 0 <= i < |pages| && pages[i].pageNumber == n {
        if n in PageRecords(init, text) {
          var i :| 0 <= i < |init| && init[i].pageNumber == n;
          assert pages[i] == init[i];
        } else {
          assert pages[|pages| - 1].pageNumber == n;
        }
      }
    }
  }

  /** The record of each page is that of its last occurrence, with no
      tables or images yet. */
  lemma {:induction false} ContentMapRecords(pages: seq<AzurePage>, text: AzurePage -> string, i: nat)
    requires i < |pages|
    requires forall j :: i < j < |pages| ==> pages[j].pageNumber != pages[i].pageNumber
    ensures PageRecords(pages, text)[pages[i].pageNumber] == PageContent(text(pages[i]), [], [])
  {
    if i < |pages| - 1 {
      var init := pages[..|pages| - 1];
      assert init[i] == pages[i];
      ContentMapRecords(init, text, i);
    }
  }

  method PageTextOf(p: AzurePage) returns (text: string)
    ensures text == PageText(p)
  {
    text := PageHeading(p.pageNumber);
    text := text + "**Page Dimensions:** " + p.dimensions + "\n\n";
    if |p.lines| > 0 {
      text := text + "**Text Content:**\n\n";
      ghost var head := text;
      for k := 0 to |p.lines|
        invariant text == LineBlocks(head, p.lines[..k])
      {
        assert p.lines[..k + 1][..k] == p.lines[..k];
        text := text + p.lines[k] + "\n\n";
      }
      assert p.lines[..|p.lines|] == p.lines;
    }
  }

  /** The page loop. */
  method BuildContentMap(pages: seq<AzurePage>) returns (m: ContentMap)
    ensures m == ContentMapOf(pages)
  {
    m := map[];
    for i := 0 to |pages|
      invariant m == PageRecords(pages[..i], PageText)
    {
      assert pages[..i + 1][..i] == pages[..i];
      var text := PageTextOf(pages[i]);
      m := m[pages[i].pageNumber := PageContent(text, [], [])];
    }
    assert pages[..|pages|] == pages;
  }

  // ===========================================================================
  // Tables

  /** `[cell.content for cell in table.cells if cell.row_index == row]`. */
  function RowCells(cells: seq<AzureCell>, row: int): (r: seq<string>)
    ensures |r| <= |cells|
  {
    if |cells| == 0 then []
    else RowCells(cells[..|cells| - 1], row) + (if cells[|cells| - 1].rowIndex == row then [cells[|cells| - 1].content] else [])
  }

  /** The cells of a row are gathered in cell order across any split. */
  lemma {:induction false} RowCellsConcat(a: seq<AzureCell>, b: seq<AzureCell>, row: int)
    ensures RowCells(a + b, row) == RowCells(a, row) + RowCells(b, row)
    decreases |b|
  {
    if |b| == 0 {
      assert a + b == a;
    } else {
      var b' := b[..|b| - 1];
      assert (a + b)[..|a + b| - 1] == a + b';
      assert (a + b)[|a + b| - 1] == b[|b| - 1];
      RowCellsConcat(a, b', row);
    }
  }

  /** One cell contributes its content exactly to its own row. */
  lemma RowCellsOne(c: AzureCell, row: int)
    ensures RowCells([c], row) == if c.rowIndex == row then [c.content] else []
  {
    assert [c][..0] == [];
  }

  /** Row `row` holds the content of exactly the cells with that row index. */
  lemma {:induction false} RowCellsMembers(cells: seq<AzureCell>, row: int, s: string)
    ensures s in RowCells(cells, row) <==> exists i :: 0 <= i < |cells| && cells[i].rowIndex == row && cells[i].content == s
  {
    if |cells| > 0 {
      var init := cells[..|cells| - 1];
      RowCellsMembers(init, row, s);
      assert forall i :: 0 <= i < |init| ==> init[i] == cells[i];
      if exists i :: 0 <= i < |cells| && cells[i].rowIndex == row && cells[i].content == s {
        var i :| 0 <= i < |cells| && cells[i].rowIndex == row && cells[i].content == s;
        if i < |init| {
          assert init[i].rowIndex == row && init[i].content == s;
        }
      }
    }
  }

  /** `md` followed by the line of row `row` and, after row 0 only, the
      separator (one `---` per cell of the row). */
  function RowMarkdown(md: string, cells: seq<AzureCell>, row: nat): (r: string)
    ensures StartsWith(r, md)
  {
    var rc := RowCells(cells, row);
    var line := md + CellsLine(rc);
    assert line[..|md|] == md;
    if row == 0 then
      var r := line + Separator(|rc|);
      assert r[..|md|] == line[..|md|];
      r
    else line
  }

  /** `"| " + " | ".join(cells) + " |\n"`. */
  function CellsLine(cells: seq<string>): string
  {
    "| " + Join(cells, " | ") + " |\n"
  }

  /** The separator line: one `---` per cell of row 0. */
  function Separator(n: nat): string
  {
    CellsLine(Repeat("---", n))
  }

  /** `md` followed by rows `0 .. n - 1`. */
  function RowsMarkdown(md: string, cells: seq<AzureCell>, n: nat): (r: string)
    ensures StartsWith(r, md)
  {
    if n == 0 then md
    else
      var prev := RowsMarkdown(md, cells, n - 1);
      var r := RowMarkdown(prev, cells, n - 1);
      assert r[..|md|] == prev[..|md|];
      r
  }

  /** Each further row appends its line, and row 0 its separator too. */
  lemma RowsMarkdownNext(md: string, cells: seq<AzureCell>, n: nat)
    ensures RowsMarkdown(md, cells, n + 1)
            == RowsMarkdown(md, cells, n) + CellsLine(RowCells(cells, n))
               + (if n == 0 then Separator(|RowCells(cells, 0)|) else "")
  {
  }

  /** The lines of rows 1 to n - 1, in row order. */
  function LaterRowLines(cells: seq<AzureCell>, n: nat): (ls: seq<string>)
    ensures |ls| == if n == 0 then 0 else n - 1
    ensures forall r :: 0 <= r < |ls| ==> ls[r] == CellsLine(RowCells(cells, r + 1))
  {
    if n <= 1 then [] else LaterRowLines(cells, n - 1) + [CellsLine(RowCells(cells, n - 1))]
  }

  /** The table's opening: row 0's line and the separator as long as row 0. */
  function FirstRow(md: string, cells: seq<AzureCell>): string
  {
    md + CellsLine(RowCells(cells, 0)) + Separator(|RowCells(cells, 0)|)
  }

  /** Text made of a head and joined lines stays so when one more line is appended. */
  lemma ConcatStep(head: string, lines: seq<string>, l: string, before: string, after: string)
    requires before == head + Concat(lines) && after == before + l
    ensures after == head + Concat(lines + [l])
  {
    ConcatAppend(lines, l);
  }

  /** The rows of a table: row 0's line, the separator as long as row 0,
      then the lines of rows 1 to n - 1 in order; no rows add nothing. */
  lemma {:induction false} RowsMarkdownShape(md: string, cells: seq<AzureCell>, n: nat)
    ensures n == 0 ==> RowsMarkdown(md, cells, n) == md
    ensures n > 0 ==> RowsMarkdown(md, cells, n) == FirstRow(md, cells) + Concat(LaterRowLines(cells, n))
  {
    if n == 1 {
      assert FirstRow(md, cells) + Concat([]) == FirstRow(md, cells);
    } else if n > 1 {
      var l := CellsLine(RowCells(cells, n - 1));
      var prev := LaterRowLines(cells, n - 1);
      RowsMarkdownShape(md, cells, n - 1);
      RowsMarkdownNext(md, cells, n - 1);
      assert LaterRowLines(cells, n) == prev + [l];
      ConcatStep(FirstRow(md, cells), prev, l, RowsMarkdown(md, cells, n - 1), RowsMarkdown(md, cells, n));
    }
  }

  const TableHeading := "\n**Table:**\n\n"

  /** The Markdown of a table: the heading and then every row. */
  function TableMarkdown(t: AzureTable): (md: string)
    ensures StartsWith(md, TableHeading)
  {
    RowsMarkdown(TableHeading, t.cells, t.rowCount)
  }

  method TableToMarkdown(t: AzureTable) returns (md: string)
    ensures md == TableMarkdown(t)
  {
    md := TableHeading;
    for row := 0 to t.rowCount
      invariant md == RowsMarkdown(TableHeading, t.cells, row)
    {
      var rowCells := RowCells(t.cells, row);
      md := md + "| " + Join(rowCells, " | ") + " |\n";
      if row == 0 {
        md := md + "| " + Join(Repeat("---", |rowCells|), " | ") + " |\n";
      }
    }
  }

  /** A table goes to the page of its first bounding region (a missing
      record is the `KeyError` whose text is the page number); a table
      without any region is dropped. */
  function AttachTable(m: ContentMap, t: AzureTable): Result<ContentMap>
  {
    if |t.regionPages| == 0 then Ok(m)
    else
      var p := t.regionPages[0];
      if p !in m then Err(IntToString(p))
      else Ok(m[p := m[p].(tables := m[p].tables + [TableMarkdown(t)])])
  }

  function AttachTables(m: ContentMap, tables: seq<AzureTable>): Result<ContentMap>
  {
    if |tables| == 0 then Ok(m)
    else
      match AttachTables(m, tables[..|tables| - 1])
      case Err(e) => Err(e)
      case Ok(m') => AttachTable(m', tables[|tables| - 1])
  }

  /** The tables whose first bounding region is on page `p`, in order. */
  function TablesOnPage(tables: seq<AzureTable>, p: int): seq<string>
  {
    if |tables| == 0 then []
    else
      var t := tables[|tables| - 1];
      TablesOnPage(tables[..|tables| - 1], p) + (if |t.regionPages| > 0 && t.regionPages[0] == p then [TableMarkdown(t)] else [])
  }

  /** Attaching succeeds exactly when every table with a region names a
      page that has a record. */
  lemma {:induction false} AttachTablesSucceeds(m: ContentMap, tables: seq<AzureTable>)
    ensures AttachTables(m, tables).Ok? <==>
              forall i :: 0 <= i < |tables| && |tables[i].regionPages| > 0 ==> tables[i].regionPages[0] in m
  {
    if |tables| > 0 {
      var init := tables[..|tables| - 1];
      AttachTablesSucceeds(m, init);
      assert forall i :: 0 <= i < |init| ==> init[i] == tables[i];
      if AttachTables(m, init).Ok? {
        AttachTablesPlacement(m, init);
      } else {
        var i :| 0 <= i < |init| && |init[i].regionPages| > 0 && init[i].regionPages[0] !in m;
        assert tables[i] == init[i];
      }
    }
  }

  /** After a successful attach each page holds the tables whose first
      region is on it, in order; texts, images and the set of pages are
      untouched. */
  lemma {:induction false} AttachTablesPlacement(m: ContentMap, tables: seq<AzureTable>)
    requires AttachTables(m, tables).Ok?
    ensures AttachTables(m, tables).value.Keys == m.Keys
    ensures forall p :: p in m ==> AttachTables(m, tables).value[p] == m[p].(tables := m[p].tables + TablesOnPage(tables, p))
  {
    if |tables| == 0 {
      forall p | p in m ensures m[p] == m[p].(tables := m[p].tables + TablesOnPage(tables, p)) {
        assert m[p].tables + [] == m[p].tables;
      }
    } else {
      var init := tables[..|tables| - 1];
      var t := tables[|tables| - 1];
      AttachTablesPlacement(m, init);
      var m' := AttachTables(m, init).value;
      var m'' := AttachTable(m', t).value;
      forall p | p in m
        ensures m''[p] == m[p].(tables := m[p].tables + TablesOnPage(tables, p))
      {
        assert TablesOnPage(tables, p) == TablesOnPage(init, p)
          + (if |t.regionPages| > 0 && t.regionPages[0] == p then [TableMarkdown(t)] else []);
        if |t.regionPages| > 0 && t.regionPages[0] == p {
          assert m''[p].tables == m[p].tables + TablesOnPage(init, p) + [TableMarkdown(t)];
        } else {
          assert TablesOnPage(tables, p) == TablesOnPage(init, p);
        }
      }
    }
  }

  /** The table loop. */
  method AttachAllTables(m: ContentMap, tables: seq<AzureTable>) returns (r: Result<ContentMap>)
    ensures r == AttachTables(m, tables)
  {
    var cm := m;
    for i := 0 to |tables|
      invariant AttachTables(m, tables[..i]) == Ok(cm)
    {
      assert tables[..i + 1][..i] == tables[..i];
      var tableMarkdown := TableToMarkdown(tables[i]);
      if |tables[i].regionPages| > 0 {
        var pageNumber := tables[i].regionPages[0];
        if pageNumber !in cm {
          AttachTablesStopped(m, tables, i + 1);
          return Err(IntToString(pageNumber));
        }
        cm := cm[pageNumber := cm[pageNumber].(tables := cm[pageNumber].tables + [tableMarkdown])];
      }
    }
    assert tables[..|tables|] == tables;
    r := Ok(cm);
  }

  lemma {:induction false} AttachTablesStopped(m: ContentMap, tables: seq<AzureTable>, i: nat)
    requires i <= |tables| && AttachTables(m, tables[..i]).Err?
    ensures AttachTables(m, tables) == AttachTables(m, tables[..i])
    decreases |tables| - i
  {
    if i < |tables| {
      assert tables[..i + 1][..i] == tables[..i];
      AttachTablesStopped(m, tables, i + 1);
    } else {
      assert tables[..i] == tables;
    }
  }

  // ===========================================================================
  // Images

  datatype EnterpriseCtx = EnterpriseCtx(ep: Endpoint, denied: map<string, string>, documentId: string)

  /** `page{p}_img{n}.{ext}`. */
  function EnterpriseImageFileName(p: nat, n: nat, ext: string): string
  {
    "page" + Digits(p) + "_img" + Digits(n) + "." + ext
  }

  function EnterpriseImageKey(documentId: string, p: nat, n: nat, ext: string): string
  {
    SourcesKey("pdf", "extracted_images", documentId, EnterpriseImageFileName(p, n, ext))
  }

  /** The Markdown reference to image `n` of page `p`. */
  function ImageReference(p: nat, n: nat, url: string): string
  {
    "\n![Image " + Digits(p) + "-" + Digits(n) + "](" + url + ")\n"
  }

  /** `content_map`, `image_urls`, the last value of `image_url` (unbound
      until an upload succeeds) and every put attempted. */
  datatype Gathered = Gathered(contentMap: ContentMap, imageUrls: Dict<string>, imageUrl: Option<string>, puts: seq<Put>)

  /** Image `n` of page `p` (both 1-based): a refused upload is skipped; an
      accepted one is listed and becomes `image_url`, and its reference goes
      to page `p`'s record, unless there is none (that `KeyError` is caught
      by the same handler). */
  function ImageStep(c: EnterpriseCtx, p: nat, n: nat, img: PdfImage, g: Gathered): (r: Gathered)
    ensures r.contentMap.Keys == g.contentMap.Keys
  {
    var key := EnterpriseImageKey(c.documentId, p, n, img.ext);
    var puts := g.puts + [Put(key, ImageObject(img.data, img.ext))];
    if key in c.denied then g.(puts := puts)
    else
      var url := ObjectUrl(c.ep, key);
      var cm := if p in g.contentMap
                then g.contentMap[p := g.contentMap[p].(images := g.contentMap[p].images
                                                         + [ImageReference(p, n, url)])]
                else g.contentMap;
      Gathered(cm, Set(g.imageUrls, ImageMapKey(p, n), url), Some(url), puts)
  }

  function PageImages(c: EnterpriseCtx, p: nat, imgs: seq<PdfImage>, g: Gathered): (r: Gathered)
    ensures r.contentMap.Keys == g.contentMap.Keys
  {
    if |imgs| == 0 then g else ImageStep(c, p, |imgs|, imgs[|imgs| - 1], PageImages(c, p, imgs[..|imgs| - 1], g))
  }

  /** The image loop over the PDF library's pages (page `p` is `pages[p - 1]`). */
  function AllImages(c: EnterpriseCtx, pages: seq<seq<PdfImage>>, g: Gathered): (r: Gathered)
    ensures r.contentMap.Keys == g.contentMap.Keys
  {
    if |pages| == 0 then g else PageImages(c, |pages|, pages[|pages| - 1], AllImages(c, pages[..|pages| - 1], g))
  }

  /** The keys of the accepted uploads, in upload order. */
  function AcceptedKeys(c: EnterpriseCtx, p: nat, imgs: seq<PdfImage>): seq<string>
  {
    if |imgs| == 0 then []
    else
      var key := EnterpriseImageKey(c.documentId, p, |imgs|, imgs[|imgs| - 1].ext);
      AcceptedKeys(c, p, imgs[..|imgs| - 1]) + (if key in c.denied then [] else [key])
  }

  function AllAcceptedKeys(c: EnterpriseCtx, pages: seq<seq<PdfImage>>): seq<string>
  {
    if |pages| == 0 then [] else AllAcceptedKeys(c, pages[..|pages| - 1]) + AcceptedKeys(c, |pages|, pages[|pages| - 1])
  }

  /** The references page `p`'s accepted uploads add, in upload order. */
  function PageReferences(c: EnterpriseCtx, p: nat, imgs: seq<PdfImage>): (refs: seq<string>)
    ensures |refs| <= |imgs|
  {
    if |imgs| == 0 then []
    else
      var n := |imgs|;
      var key := EnterpriseImageKey(c.documentId, p, n, imgs[n - 1].ext);
      PageReferences(c, p, imgs[..n - 1]) + (if key in c.denied then [] else [ImageReference(p, n, ObjectUrl(c.ep, key))])
  }

  /** One image: page `p`'s record gains the reference when the upload is
      accepted, and every other record `q` is left as it was. */
  lemma ImageStepAt(c: EnterpriseCtx, p: nat, n: nat, img: PdfImage, g: Gathered, q: int)
    requires q in g.contentMap
    ensures var key := EnterpriseImageKey(c.documentId, p, n, img.ext);
            ImageStep(c, p, n, img, g).contentMap[q]
            == if q == p && key !in c.denied
               then g.contentMap[q].(images := g.contentMap[q].images + [ImageReference(p, n, ObjectUrl(c.ep, key))])
               else g.contentMap[q]
  {
  }

  /** One image on a record holding `before` and then `refs`: the new
      reference, if any, comes after both. */
  lemma ImageStepAppends(c: EnterpriseCtx, p: nat, n: nat, img: PdfImage, g: Gathered,
                         before: seq<string>, refs: seq<string>)
    requires p in g.contentMap && g.contentMap[p].images == before + refs
    ensures var key := EnterpriseImageKey(c.documentId, p, n, img.ext);
            var added := if key in c.denied then [] else [ImageReference(p, n, ObjectUrl(c.ep, key))];
            ImageStep(c, p, n, img, g).contentMap[p] == g.contentMap[p].(images := before + (refs + added))
  {
    ImageStepAt(c, p, n, img, g, p);
    var key := EnterpriseImageKey(c.documentId, p, n, img.ext);
    var added := if key in c.denied then [] else [ImageReference(p, n, ObjectUrl(c.ep, key))];
    assert before + refs + added == before + (refs + added);
  }

  /** Page `p`'s record gains the references of its accepted uploads, in
      order, and every other record `q` is left as it was. */
  lemma {:induction false} PageImagesAt(c: EnterpriseCtx, p: nat, imgs: seq<PdfImage>, g: Gathered, q: int)
    requires q in g.contentMap
    ensures PageImages(c, p, imgs, g).contentMap[q]
            == if q == p then g.contentMap[q].(images := g.contentMap[q].images + PageReferences(c, p, imgs))
               else g.contentMap[q]
  {
    if |imgs| == 0 {
      if q == p {
        assert g.contentMap[q].images + [] == g.contentMap[q].images;
      }
    } else {
      var init := imgs[..|imgs| - 1];
      var g1 := PageImages(c, p, init, g);
      PageImagesAt(c, p, init, g, q);
      if q == p {
        ImageStepAppends(c, p, |imgs|, imgs[|imgs| - 1], g1, g.contentMap[q].images, PageReferences(c, p, init));
      } else {
        ImageStepAt(c, p, |imgs|, imgs[|imgs| - 1], g1, q);
      }
    }
  }

  /** After the image loop over `pages`, the record of each page `q` among
      them holds, after its images so far, the references of page `q`'s
      accepted uploads in order; records of other pages are unchanged. */
  lemma {:induction false} AllImagesAt(c: EnterpriseCtx, pages: seq<seq<PdfImage>>, g: Gathered, q: int)
    requires q in g.contentMap
    ensures AllImages(c, pages, g).contentMap[q]
            == if 1 <= q <= |pages|
               then g.contentMap[q].(images := g.contentMap[q].images + PageReferences(c, q, pages[q - 1]))
               else g.contentMap[q]
  {
    if |pages| > 0 {
      var init := pages[..|pages| - 1];
      AllImagesAt(c, init, g, q);
      PageImagesAt(c, |pages|, pages[|pages| - 1], AllImages(c, init, g), q);
      if 1 <= q < |pages| {
        assert init[q - 1] == pages[q - 1];
      }
    }
  }

  /** `image_url` ends as the URL of the last accepted upload, and stays as
      it was when no upload is accepted. */
  lemma {:induction false} PageImagesLastUrl(c: EnterpriseCtx, p: nat, imgs: seq<PdfImage>, g: Gathered)
    ensures var ks := AcceptedKeys(c, p, imgs);
            PageImages(c, p, imgs, g).imageUrl == if |ks| == 0 then g.imageUrl else Some(ObjectUrl(c.ep, ks[|ks| - 1]))
  {
    if |imgs| > 0 {
      var init := imgs[..|imgs| - 1];
      var key := EnterpriseImageKey(c.documentId, p, |imgs|, imgs[|imgs| - 1].ext);
      PageImagesLastUrl(c, p, init, g);
      ImageStepUrl(c, p, |imgs|, imgs[|imgs| - 1], PageImages(c, p, init, g));
      if key in c.denied {
        assert AcceptedKeys(c, p, imgs) == AcceptedKeys(c, p, init);
      } else {
        assert AcceptedKeys(c, p, imgs) == AcceptedKeys(c, p, init) + [key];
      }
    }
  }

  /** One image moves `image_url` to its URL exactly when its upload is accepted. */
  lemma ImageStepUrl(c: EnterpriseCtx, p: nat, n: nat, img: PdfImage, g: Gathered)
    ensures var key := EnterpriseImageKey(c.documentId, p, n, img.ext);
            ImageStep(c, p, n, img, g).imageUrl == if key in c.denied then g.imageUrl else Some(ObjectUrl(c.ep, key))
  {
  }

  lemma {:induction false} AllImagesLastUrl(c: EnterpriseCtx, pages: seq<seq<PdfImage>>, g: Gathered)
    ensures var ks := AllAcceptedKeys(c, pages);
            AllImages(c, pages, g).imageUrl == if |ks| == 0 then g.imageUrl else Some(ObjectUrl(c.ep, ks[|ks| - 1]))
  {
    if |pages| > 0 {
      var init := pages[..|pages| - 1];
      AllImagesLastUrl(c, init, g);
      PageImagesLastUrl(c, |pages|, pages[|pages| - 1], AllImages(c, init, g));
      var a := AllAcceptedKeys(c, init);
      var b := AcceptedKeys(c, |pages|, pages[|pages| - 1]);
      if |b| > 0 {
        assert (a + b)[|a + b| - 1] == b[|b| - 1];
      } else {
        assert a + b == a;
      }
    }
  }

  /** One image: the `try` block. */
  method UploadImage(bucket: Bucket, c: EnterpriseCtx, p: nat, n: nat, img: PdfImage, g: Gathered,
                     ghost objects0: map<string, StoredObject>)
    returns (g': Gathered)
    requires bucket.endpoint == c.ep && bucket.denied == c.denied
    requires bucket.objects == Written(objects0, c.denied, g.puts)
    modifies bucket
    ensures g' == ImageStep(c, p, n, img, g)
    ensures bucket.objects == Written(objects0, c.denied, g'.puts)
  {
    var key := EnterpriseImageKey(c.documentId, p, n, img.ext);
    var uploaded := bucket.UploadImageToS3(img.data, key, img.ext);
    WrittenAppend(objects0, c.denied, g.puts, Put(key, ImageObject(img.data, img.ext)));
    g' := g.(puts := g.puts + [Put(key, ImageObject(img.data, img.ext))]);
    if uploaded.Ok? {
      var imageUrl := uploaded.value;
      g' := g'.(imageUrls := Set(g.imageUrls, ImageMapKey(p, n), imageUrl), imageUrl := Some(imageUrl));
      if p in g.contentMap {
        var imageMarkdown := ImageReference(p, n, imageUrl);
        g' := g'.(contentMap := g.contentMap[p := g.contentMap[p].(images := g.contentMap[p].images + [imageMarkdown])]);
      }
    }
  }

  method UploadPageImages(bucket: Bucket, c: EnterpriseCtx, p: nat, imgs: seq<PdfImage>, g: Gathered,
                          ghost objects0: map<string, StoredObject>)
    returns (g': Gathered)
    requires bucket.endpoint == c.ep && bucket.denied == c.denied
    requires bucket.objects == Written(objects0, c.denied, g.puts)
    modifies bucket
    ensures g' == PageImages(c, p, imgs, g)
    ensures bucket.objects == Written(objects0, c.denied, g'.puts)
  {
    g' := g;
    for i := 0 to |imgs|
      invariant g' == PageImages(c, p, imgs[..i], g)
      invariant bucket.objects == Written(objects0, c.denied, g'.puts)
    {
      assert imgs[..i + 1][..i] == imgs[..i];
      g' := UploadImage(bucket, c, p, i + 1, imgs[i], g', objects0);
    }
    assert imgs[..|imgs|] == imgs;
  }

  /** The image loop. */
  method UploadAllImages(bucket: Bucket, c: EnterpriseCtx, pages: seq<seq<PdfImage>>, g: Gathered,
                         ghost objects0: map<string, StoredObject>)
    returns (g': Gathered)
    requires bucket.endpoint == c.ep && bucket.denied == c.denied
    requires bucket.objects == Written(objects0, c.denied, g.puts)
    modifies bucket
    ensures g' == AllImages(c, pages, g)
    ensures bucket.objects == Written(objects0, c.denied, g'.puts)
  {
    g' := g;
    for i := 0 to |pages|
      invariant g' == AllImages(c, pages[..i], g)
      invariant bucket.objects == Written(objects0, c.denied, g'.puts)
    {
      assert pages[..i + 1][..i] == pages[..i];
      g' := UploadPageImages(bucket, c, i + 1, pages[i], g', objects0);
    }
    assert pages[..|pages|] == pages;
  }

  // ===========================================================================
  // Assembly

  /** A smallest element of a non-empty set, found by induction. */
  ghost function LeastOf(s: set<int>): (m: int)
    requires s != {}
    ensures m in s && forall z :: z in s ==> m <= z
    decreases |s|
  {
    assert exists z :: z in s by {
      if forall z :: z !in s {
        assert false;
      }
    }
    var x :| x in s;
    if s == {x} then x
    else
      var y := LeastOf(s - {x});
      assert forall z :: z in s ==> z == x || z in s - {x};
      if x < y then x else y
  }

  /** The smallest element of a non-empty set. */
  function SetMin(s: set<int>): (m: int)
    requires s != {}
    ensures m in s && forall x :: x in s ==> m <= x
  {
    assert LeastOf(s) in s && forall y :: y in s ==> LeastOf(s) <= y;
    var x :| x in s && forall y :: y in s ==> x <= y;
    x
  }

  /** `sorted(s)`: the elements of `s` in ascending order. */
  function SortedKeys(s: set<int>): (ks: seq<int>)
    ensures |ks| == |s|
    ensures forall k :: k in s <==> k in ks
    ensures forall i, j :: 0 <= i < j < |ks| ==> ks[i] < ks[j]
    decreases |s|
  {
    if s == {} then []
    else
      var m := SetMin(s);
      var rest := SortedKeys(s - {m});
      PrependMin(s, m, rest);
      [m] + rest
  }

  /** The least element of `s` in front of the rest of `s` in ascending order
      is all of `s` in ascending order. */
  lemma PrependMin(s: set<int>, m: int, rest: seq<int>)
    requires m in s && forall x :: x in s ==> m <= x
    requires forall k :: k in s - {m} <==> k in rest
    requires forall i, j :: 0 <= i < j < |rest| ==> rest[i] < rest[j]
    ensures forall k :: k in s <==> k in [m] + rest
    ensures forall i, j :: 0 <= i < j < |[m] + rest| ==> ([m] + rest)[i] < ([m] + rest)[j]
  {
    var ks := [m] + rest;
    forall i, j | 0 <= i < j < |ks|
      ensures ks[i] < ks[j]
    {
      assert ks[j] == rest[j - 1] && rest[j - 1] in s - {m};
      if i > 0 {
        assert ks[i] == rest[i - 1];
      }
    }
  }

  /** A page's share of the output: text, then images, then tables. */
  function PageMarkdown(pc: PageContent): string
  {
    pc.text + Concat(pc.images) + Concat(pc.tables)
  }

  function PagesMarkdown(m: ContentMap, ks: seq<int>): string
    requires forall i :: 0 <= i < |ks| ==> ks[i] in m
  {
    if |ks| == 0 then "" else PagesMarkdown(m, ks[..|ks| - 1]) + PageMarkdown(m[ks[|ks| - 1]])
  }

  const OutputHeading := "# PDF Extraction Output\n\n"

  /** `markdown_content` at the end: the heading, then every page in
      ascending page number. */
  function Combined(m: ContentMap): (md: string)
    ensures StartsWith(md, OutputHeading)
  {
    var ks := SortedKeys(m.Keys);
    var md := OutputHeading + PagesMarkdown(m, ks);
    assert md[..|OutputHeading|] == OutputHeading;
    md
  }

  /** The inner loops of the assembly: each part appended to `md` in order. */
  method AppendAll(md: string, parts: seq<string>) returns (md': string)
    ensures md' == md + Concat(parts)
  {
    md' := md;
    for j := 0 to |parts|
      invariant md' == md + Concat(parts[..j])
    {
      ConcatAppend(parts[..j], parts[j]);
      assert parts[..j + 1] == parts[..j] + [parts[j]];
      md' := md' + parts[j];
    }
    assert parts[..|parts|] == parts;
  }

  /** One page of the assembly loop, appended to `md`. */
  method AppendPage(md: string, pc: PageContent) returns (md': string)
    ensures md' == md + PageMarkdown(pc)
  {
    md' := md + pc.text;
    md' := AppendAll(md', pc.images);
    md' := AppendAll(md', pc.tables);
  }

  /** The assembly loop over the pages `ks`. */
  method AppendPages(md0: string, m: ContentMap, ks: seq<int>) returns (md: string)
    requires forall i :: 0 <= i < |ks| ==> ks[i] in m
    ensures md == md0 + PagesMarkdown(m, ks)
  {
    md := md0;
    for i := 0 to |ks|
      invariant md == md0 + PagesMarkdown(m, ks[..i])
    {
      assert ks[..i + 1][..i] == ks[..i];
      md := AppendPage(md, m[ks[i]]);
    }
    assert ks[..|ks|] == ks;
  }

  /** The assembly: every page in ascending page number. */
  method CombineContent(m: ContentMap) returns (md: string)
    ensures md == Combined(m)
  {
    var keys := SortedKeys(m.Keys);
    md := AppendPages(OutputHeading, m, keys);
  }

  // ===========================================================================
  // process_pdf_with_enterprise

  const EnterpriseFailure := "Failed to process PDF with enterprise method: "
  const MissingCredentials := "Azure Form Recognizer credentials not found in environment variables"
  const UnboundImageUrl := "cannot access local variable 'image_url' where it is not associated with a value"

  /** The dictionary `process_pdf_with_enterprise` returns: `images` is the
      last uploaded image's URL. */
  function EnterpriseResponse(documentId: string, filename: string, markdownUrl: string, imageUrl: string, timestamp: string): Value
  {
    Obj([("source_type", Str("pdf")),
         ("document_id", Str(documentId)),
         ("urls", Obj([("markdown", Str(markdownUrl)), ("images", Str(imageUrl))])),
         ("metadata", Obj([("source_type", Str("pdf")),
                           ("original_filename", Str(filename)),
                           ("processing_date", Str(timestamp)),
                           ("content_type", Str("document"))]))])
  }

  /** `content_map` after the page and table loops, or the error. */
  function AnalysedContent(credentials: bool, analysis: Result<Analysis>): Result<ContentMap>
  {
    if !credentials then Err(MissingCredentials)
    else
      match analysis
      case Err(e) => Err(e)
      case Ok(a) => AttachTables(ContentMapOf(a.pages), a.tables)
  }

  /** What `process_pdf_with_enterprise` returns or raises, and every put it
      attempts. `credentials` says both environment variables are set,
      `analysis` is the layout service's answer and `images` the PDF
      library's images page by page (or its error). */
  function ProcessEnterprise(ep: Endpoint, denied: map<string, string>, credentials: bool, analysis: Result<Analysis>,
                             images: Result<seq<seq<PdfImage>>>, documentId: string, filename: string, timestamp: string)
    : (Result<Value>, seq<Put>)
  {
    match AnalysedContent(credentials, analysis)
    case Err(e) => (Err(EnterpriseFailure + e), [])
    case Ok(m) =>
      match images
      case Err(e) => (Err(EnterpriseFailure + e), [])
      case Ok(pages) => StoreEnterprise(EnterpriseCtx(ep, denied, documentId), m, pages, filename, timestamp)
  }

  /** From the image loop on: the outcome once `content_map` is built. */
  function StoreEnterprise(c: EnterpriseCtx, m: ContentMap, pages: seq<seq<PdfImage>>, filename: string, timestamp: string)
    : (Result<Value>, seq<Put>)
  {
    var g := AllImages(c, pages, Gathered(m, [], None, []));
    var md := Combined(g.contentMap);
    var key := PdfMarkdownKey(c.documentId, filename);
    var puts := g.puts + [Put(key, MarkdownObject(md))];
    if key in c.denied then (Err(EnterpriseFailure + MarkdownUploadError(c.denied[key])), puts)
    else if g.imageUrl.None? then (Err(EnterpriseFailure + UnboundImageUrl), puts)
    else (Ok(EnterpriseResponse(c.documentId, filename, ObjectUrl(c.ep, key), g.imageUrl.value, timestamp)), puts)
  }

  /** Without any accepted image upload the call fails, after the Markdown
      has been stored; otherwise `images` is the URL of the last accepted
      upload. */
  lemma ImageUrlOutcome(ep: Endpoint, denied: map<string, string>, a: Analysis, pages: seq<seq<PdfImage>>,
                        documentId: string, filename: string, timestamp: string, objects0: map<string, StoredObject>)
    requires AnalysedContent(true, Ok(a)).Ok?
    requires PdfMarkdownKey(documentId, filename) !in denied
    ensures var c := EnterpriseCtx(ep, denied, documentId);
            var ks := AllAcceptedKeys(c, pages);
            var r := ProcessEnterprise(ep, denied, true, Ok(a), Ok(pages), documentId, filename, timestamp);
            var key := PdfMarkdownKey(documentId, filename);
            && (|ks| == 0 ==> r.0 == Err(EnterpriseFailure + UnboundImageUrl))
            && (|ks| > 0 ==> r.0 == Ok(EnterpriseResponse(documentId, filename, ObjectUrl(ep, key),
                                                          ObjectUrl(ep, ks[|ks| - 1]), timestamp)))
            && key in Written(objects0, denied, r.1)
  {
    var c := EnterpriseCtx(ep, denied, documentId);
    var m := AnalysedContent(true, Ok(a)).value;
    var g0 := Gathered(m, [], None, []);
    assert ProcessEnterprise(ep, denied, true, Ok(a), Ok(pages), documentId, filename, timestamp)
           == StoreEnterprise(c, m, pages, filename, timestamp);
    var g := AllImages(c, pages, g0);
    AllImagesLastUrl(c, pages, g0);
    var key := PdfMarkdownKey(documentId, filename);
    WrittenAppend(objects0, denied, g.puts, Put(key, MarkdownObject(Combined(g.contentMap))));
  }

  /** The page and table loops once the credentials are checked. */
  method AnalyseDocument(credentials: bool, analysis: Result<Analysis>) returns (r: Result<ContentMap>)
    ensures r == AnalysedContent(credentials, analysis)
  {
    if !credentials {
      return Err(MissingCredentials);
    }
    if analysis.Err? {
      return Err(analysis.msg);
    }
    var contentMap := BuildContentMap(analysis.value.pages);
    r := AttachAllTables(contentMap, analysis.value.tables);
  }

  /** `process_pdf_with_enterprise`. */
  method ProcessPdfWithEnterprise(bucket: Bucket, credentials: bool, analysis: Result<Analysis>,
                                  images: Result<seq<seq<PdfImage>>>, documentId: string, filename: string, timestamp: string)
    returns (r: Result<Value>)
    modifies bucket
    ensures r == ProcessEnterprise(bucket.endpoint, bucket.denied, credentials, analysis, images, documentId, filename, timestamp).0
    ensures bucket.objects == Written(old(bucket.objects), bucket.denied,
                                      ProcessEnterprise(bucket.endpoint, bucket.denied, credentials, analysis, images,
                                                        documentId, filename, timestamp).1)
  {
    var content := AnalyseDocument(credentials, analysis);
    if content.Err? {
      return Err(EnterpriseFailure + content.msg);
    }
    if images.Err? {
      return Err(EnterpriseFailure + images.msg);
    }
    r := StoreEnterpriseContent(bucket, EnterpriseCtx(bucket.endpoint, bucket.denied, documentId), content.value,
                                images.value, filename, timestamp);
  }

  /** The image loop, the assembly and the Markdown upload. */
  method StoreEnterpriseContent(bucket: Bucket, c: EnterpriseCtx, m: ContentMap, pages: seq<seq<PdfImage>>,
                                filename: string, timestamp: string)
    returns (r: Result<Value>)
    requires bucket.endpoint == c.ep && bucket.denied == c.denied
    modifies bucket
    ensures r == StoreEnterprise(c, m, pages, filename, timestamp).0
    ensures bucket.objects == Written(old(bucket.objects), c.denied, StoreEnterprise(c, m, pages, filename, timestamp).1)
  {
    var g := UploadAllImages(bucket, c, pages, Gathered(m, [], None, []), old(bucket.objects));
    var markdownContent := CombineContent(g.contentMap);
    var markdownKey := PdfMarkdownKey(c.documentId, filename);
    var markdownUrl := bucket.UploadMarkdownToS3(markdownContent, markdownKey);
    WrittenAppend(old(bucket.objects), c.denied, g.puts, Put(markdownKey, MarkdownObject(markdownContent)));
    assert StoreEnterprise(c, m, pages, filename, timestamp).1 == g.puts + [Put(markdownKey, MarkdownObject(markdownContent))];
    if markdownUrl.Err? {
      return Err(EnterpriseFailure + markdownUrl.msg);
    }
    if g.imageUrl.None? {
      return Err(EnterpriseFailure + UnboundImageUrl);
    }
    r := Ok(EnterpriseResponse(c.documentId, filename, markdownUrl.value, g.imageUrl.value, timestamp));
  }
}
