/** The open-source web processor (backend/utils/web_processor_open_source.py):
    HTML tables become Markdown tables, and a scraped page becomes one
    Markdown document whose images are re-hosted in the bucket. The HTML
    parser's output, the HTTP client, `urljoin` and base64 decoding are
    inputs. */
module WebOpenSource {
  import opened Values
  import opened Strings
  import opened Storage
  import opened DocumentIds

  // ===========================================================================
  // Tables

  /** One `th`/`td` cell: its `get_text()` and the attributes the converter reads. */
  datatype Cell = Cell(text: string, align: Option<string>, style: Option<string>, colspan: Option<string>)

  /** One `tr`, with whether its parent element is the `thead`. */
  datatype Row = Row(inThead: bool, cells: seq<Cell>)

  /** A `table`: the cells of its first `thead` (none when it has no
      `thead`) and every `tr` below it, in document order. */
  datatype HtmlTable = HtmlTable(headerCells: seq<Cell>, rows: seq<Row>)

  /** The attribute alignment is read from: `align` unless it is missing or empty, else `style`. */
  function AlignAttribute(c: Cell): string
  {
    if c.align.Some? && c.align.value != "" then c.align.value else c.style.GetOr("")
  }

  /** The alignment recorded for a header cell: `right` wins over `center`. */
  function Alignment(c: Cell): (a: string)
    ensures a in ["-:", ":-:", "-"]
    ensures a == "-:" <==> Contains(AlignAttribute(c), "right")
    ensures a == ":-:" <==> !Contains(AlignAttribute(c), "right") && Contains(AlignAttribute(c), "center")
  {
    var attr := AlignAttribute(c);
    if Contains(attr, "right") then "-:" else if Contains(attr, "center") then ":-:" else "-"
  }

  /** What the separator row shows for a recorded alignment (`:-:` is wrapped once more). */
  function SeparatorToken(a: string): string
  {
    if a == ":-:" then ":" + a + ":" else a
  }

  /** `'| ' + ' | '.join(cells) + ' |'`. */
  function RowLine(cells: seq<string>): (line: string)
    ensures StartsWith(line, "| ") && EndsWith(line, " |")
  {
    var line := "| " + Join(cells, " | ") + " |";
    assert line[..2] == "| ";
    assert line[|line| - 2..] == " |";
    line
  }

  /** The stripped texts of the header cells. */
  function HeaderTexts(cells: seq<Cell>): (texts: seq<string>)
    ensures |texts| == |cells|
  {
    if |cells| == 0 then [] else HeaderTexts(cells[..|cells| - 1]) + [Strip(cells[|cells| - 1].text)]
  }

  /** The alignments recorded for the header cells. */
  function HeaderAlignments(cells: seq<Cell>): (alignments: seq<string>)
    ensures |alignments| == |cells|
  {
    if |cells| == 0 then [] else HeaderAlignments(cells[..|cells| - 1]) + [Alignment(cells[|cells| - 1])]
  }

  /** The header row holds each cell's stripped text and the separator row
      each cell's recorded alignment, column by column. */
  lemma {:induction false} HeaderColumns(cells: seq<Cell>, i: nat)
    requires i < |cells|
    ensures HeaderTexts(cells)[i] == Strip(cells[i].text)
    ensures HeaderAlignments(cells)[i] == Alignment(cells[i])
  {
    var init := cells[..|cells| - 1];
    assert HeaderTexts(cells) == HeaderTexts(init) + [Strip(cells[|cells| - 1].text)];
    assert HeaderAlignments(cells) == HeaderAlignments(init) + [Alignment(cells[|cells| - 1])];
    if i < |cells| - 1 {
      assert init[i] == cells[i];
      HeaderColumns(init, i);
    }
  }

  /** The separator row's tokens for the recorded alignments. */
  function SeparatorTokens(alignments: seq<string>): (tokens: seq<string>)
    ensures |tokens| == |alignments|
    ensures forall k :: 0 <= k < |alignments| ==> tokens[k] == SeparatorToken(alignments[k])
  {
    seq(|alignments|, k requires 0 <= k < |alignments| => SeparatorToken(alignments[k]))
  }

  /** The header row and the separator row; none without header cells. */
  function HeaderLines(cells: seq<Cell>): (lines: seq<string>)
    ensures |lines| == if |cells| == 0 then 0 else 2
  {
    if |cells| == 0 then []
    else [RowLine(HeaderTexts(cells)), RowLine(SeparatorTokens(HeaderAlignments(cells)))]
  }

  /** The message of the `ValueError` that `int()` raises on text it cannot parse. */
  function IntLiteralError(s: string): string
  {
    "invalid literal for int() with base 10: '" + s + "'"
  }

  /** `[text] * int(cell.get('colspan', 1))`. */
  function CellCopies(c: Cell): (r: Result<seq<string>>)
  {
    if c.colspan.None? then Ok([Strip(c.text)])
    else match ParseInt(c.colspan.value)
      case None => Err(IntLiteralError(c.colspan.value))
      case Some(n) => Ok(Repeat(Strip(c.text), n))
  }

  /** The texts of a body row after colspans are expanded; the first
      unparsable colspan raises. */
  function ExpandRow(cells: seq<Cell>): (r: Result<seq<string>>)
  {
    if |cells| == 0 then Ok([])
    else match ExpandRow(cells[..|cells| - 1])
      case Err(m) => Err(m)
      case Ok(prefix) =>
        match CellCopies(cells[|cells| - 1])
        case Err(m) => Err(m)
        case Ok(copies) => Ok(prefix + copies)
  }

  /** `any(cells)`: some text is non-empty. */
  predicate AnyNonEmpty(cells: seq<string>)
  {
    exists i :: 0 <= i < |cells| && cells[i] != ""
  }

  /** The line one `tr` contributes: none for a `thead` row or a row without content. */
  function RowOutput(row: Row): Result<seq<string>>
  {
    if row.inThead then Ok([])
    else match ExpandRow(row.cells)
      case Err(m) => Err(m)
      case Ok(cells) => Ok(if AnyNonEmpty(cells) then [RowLine(cells)] else [])
  }

  function BodyLines(rows: seq<Row>): Result<seq<string>>
  {
    if |rows| == 0 then Ok([])
    else match BodyLines(rows[..|rows| - 1])
      case Err(m) => Err(m)
      case Ok(lines) =>
        match RowOutput(rows[|rows| - 1])
        case Err(m) => Err(m)
        case Ok(more) => Ok(lines + more)
  }

  function TableLines(t: HtmlTable): Result<seq<string>>
  {
    match BodyLines(t.rows)
    case Err(m) => Err(m)
    case Ok(body) => Ok(HeaderLines(t.headerCells) + body)
  }

  /** What `convert_table_to_markdown` returns for a table. */
  function TableMarkdown(t: HtmlTable): Result<string>
  {
    match TableLines(t)
    case Err(m) => Err(m)
    case Ok(lines) => Ok(Join(lines, "\n"))
  }

  lemma {:induction false} ExpandRowErrPersists(cells: seq<Cell>, k: nat)
    requires k <= |cells| && ExpandRow(cells[..k]).Err?
    ensures ExpandRow(cells) == ExpandRow(cells[..k])
    decreases |cells|
  {
    if k < |cells| {
      assert cells[..|cells| - 1][..k] == cells[..k];
      ExpandRowErrPersists(cells[..|cells| - 1], k);
    } else {
      assert cells[..k] == cells;
    }
  }

  /** `BodyLines` over one more row. */
  lemma BodyLinesNext(rows: seq<Row>, i: nat)
    requires i < |rows|
    ensures BodyLines(rows[..i + 1]) == match BodyLines(rows[..i])
                                        case Err(m) => Err(m)
                                        case Ok(lines) =>
                                          match RowOutput(rows[i])
                                          case Err(m) => Err(m)
                                          case Ok(more) => Ok(lines + more)
  {
    assert rows[..i + 1][..i] == rows[..i];
  }

  lemma {:induction false} BodyLinesErrPersists(rows: seq<Row>, k: nat)
    requires k <= |rows| && BodyLines(rows[..k]).Err?
    ensures BodyLines(rows) == BodyLines(rows[..k])
    decreases |rows|
  {
    if k < |rows| {
      assert rows[..|rows| - 1][..k] == rows[..k];
      BodyLinesErrPersists(rows[..|rows| - 1], k);
    } else {
      assert rows[..k] == rows;
    }
  }

  /** The two header lines of `convert_table_to_markdown`. */
  method ConvertHeader(cells: seq<Cell>) returns (lines: seq<string>)
    ensures lines == HeaderLines(cells)
  {
    var headers, alignments := HeaderCells(cells);
    lines := [];
    if |headers| > 0 {
      lines := [RowLine(headers), RowLine(SeparatorTokens(alignments))];
    }
  }

  /** The loop over the header cells: their texts and recorded alignments. */
  method HeaderCells(cells: seq<Cell>) returns (headers: seq<string>, alignments: seq<string>)
    ensures headers == HeaderTexts(cells)
    ensures alignments == HeaderAlignments(cells)
  {
    headers := [];
    alignments := [];
    for i := 0 to |cells|
      invariant headers == HeaderTexts(cells[..i])
      invariant alignments == HeaderAlignments(cells[..i])
    {
      var cell := cells[i];
      assert cells[..i + 1][..i] == cells[..i];
      headers := headers + [Strip(cell.text)];
      var a := RecordAlignment(cell);
      alignments := alignments + [a];
    }
    assert cells[..|cells|] == cells;
  }

  /** One header cell's alignment, as the loop records it. */
  method RecordAlignment(cell: Cell) returns (a: string)
    ensures a == Alignment(cell)
  {
    var align := AlignAttribute(cell);
    if Contains(align, "right") {
      a := "-:";
    } else if Contains(align, "center") {
      a := ":-:";
    } else {
      a := "-";
    }
  }

  /** The cell loop for one body row: colspans expanded, or the first `int()` failure. */
  method ExpandCells(cells: seq<Cell>) returns (r: Result<seq<string>>)
    ensures r == ExpandRow(cells)
  {
    var texts: seq<string> := [];
    for j := 0 to |cells|
      invariant ExpandRow(cells[..j]) == Ok(texts)
    {
      assert cells[..j + 1][..j] == cells[..j];
      var cell := cells[j];
      var colspan: int;
      if cell.colspan.None? {
        colspan := 1;
      } else {
        var parsed := ParseInt(cell.colspan.value);
        if parsed.None? {
          ExpandRowErrPersists(cells, j + 1);
          return Err(IntLiteralError(cell.colspan.value));
        }
        colspan := parsed.value;
      }
      var text := Strip(cell.text);
      assert cells[..j + 1][j] == cell;
      assert Repeat(text, 1) == [text];
      texts := texts + Repeat(text, colspan);
    }
    assert cells[..|cells|] == cells;
    r := Ok(texts);
  }

  /** One pass of the row loop: nothing for a `thead` row, the row's line
      when some expanded cell has text, or the `int()` failure. */
  method RowLines(row: Row) returns (r: Result<seq<string>>)
    ensures r == RowOutput(row)
  {
    if row.inThead {
      return Ok([]);
    }
    var cells := ExpandCells(row.cells);
    if cells.Err? {
      return Err(cells.msg);
    }
    r := Ok([]);
    if AnyNonEmpty(cells.value) {
      r := Ok([RowLine(cells.value)]);
    }
  }

  /** `convert_table_to_markdown`. */
  method ConvertTableToMarkdown(t: HtmlTable) returns (r: Result<string>)
    ensures r == TableMarkdown(t)
  {
    var lines := ConvertHeader(t.headerCells);
    var body := ConvertRows(t.rows);
    if body.Err? {
      return Err(body.msg);
    }
    r := Ok(Join(lines + body.value, "\n"));
  }

  /** The row loop of `convert_table_to_markdown`: the body lines, or the
      first `int()` failure. */
  method ConvertRows(rows: seq<Row>) returns (r: Result<seq<string>>)
    ensures r == BodyLines(rows)
  {
    var lines := [];
    for i := 0 to |rows|
      invariant BodyLines(rows[..i]) == Ok(lines)
    {
      BodyLinesNext(rows, i);
      var more := RowLines(rows[i]);
      if more.Err? {
        BodyLinesErrPersists(rows, i + 1);
        return Err(more.msg);
      }
      lines := lines + more.value;
    }
    assert rows[..|rows|] == rows;
    r := Ok(lines);
  }

  // ---------------------------------------------------------------------------
  // Properties of the table conversion

  /** A `colspan` written as a decimal number `n` repeats the cell's text `n` times. */
  lemma ColspanRepeats(c: Cell, n: nat)
    requires c.colspan == Some(Digits(n))
    ensures CellCopies(c) == Ok(Repeat(Strip(c.text), n))
  {
    ParseIntOfDigits(n);
  }

  function BodyRows(rows: seq<Row>): (r: seq<Row>)
    ensures forall i :: 0 <= i < |r| ==> !r[i].inThead
  {
    if |rows| == 0 then []
    else if rows[|rows| - 1].inThead then BodyRows(rows[..|rows| - 1])
    else BodyRows(rows[..|rows| - 1]) + [rows[|rows| - 1]]
  }

  /** Rows whose parent is the `thead` contribute nothing to the body. */
  lemma {:induction false} TheadRowsSkipped(rows: seq<Row>)
    ensures BodyLines(rows) == BodyLines(BodyRows(rows))
  {
    if |rows| > 0 {
      var init := rows[..|rows| - 1];
      var last := rows[|rows| - 1];
      TheadRowsSkipped(init);
      if last.inThead {
        if BodyLines(init).Ok? {
          var lines := BodyLines(init).value;
          assert lines + [] == lines;
        }
      } else {
        var kept := BodyRows(init) + [last];
        assert kept[..|kept| - 1] == BodyRows(init) && kept[|kept| - 1] == last;
        assert BodyRows(rows) == kept;
      }
    }
  }

  /** A body row is blank: its colspans all parse and every expanded text is empty. */
  predicate BlankRow(row: Row)
  {
    ExpandRow(row.cells).Ok? && !AnyNonEmpty(ExpandRow(row.cells).value)
  }

  lemma {:induction false} BodyLinesEmptyIff(rows: seq<Row>)
    ensures BodyLines(rows) == Ok([]) <==> forall i :: 0 <= i < |rows| && !rows[i].inThead ==> BlankRow(rows[i])
  {
    if |rows| > 0 {
      var init := rows[..|rows| - 1];
      BodyLinesEmptyIff(init);
      assert forall i :: 0 <= i < |init| ==> init[i] == rows[i];
      if BodyLines(init) != Ok([]) {
        var i :| 0 <= i < |init| && !init[i].inThead && !BlankRow(init[i]);
        assert !rows[i].inThead && !BlankRow(rows[i]);
      }
    }
  }

  lemma {:induction false} JoinEmptyIff(parts: seq<string>, sep: string)
    requires |parts| > 0 ==> |parts[0]| > 0
    ensures Join(parts, sep) == "" <==> |parts| == 0
  {
    if |parts| > 1 {
      assert |Join(parts, sep)| >= |parts[0]|;
    }
  }

  /** The converter returns the empty string, which the scraper drops,
      exactly when the table has no header cell and every body row is blank. */
  lemma TableMarkdownEmptyIff(t: HtmlTable)
    ensures TableMarkdown(t) == Ok("") <==>
              |t.headerCells| == 0 && forall i :: 0 <= i < |t.rows| && !t.rows[i].inThead ==> BlankRow(t.rows[i])
  {
    BodyLinesEmptyIff(t.rows);
    if TableLines(t).Ok? {
      var body := BodyLines(t.rows).value;
      var lines := TableLines(t).value;
      assert lines == HeaderLines(t.headerCells) + body;
      if |t.headerCells| > 0 {
        assert |lines[0]| >= 2;
      } else if |body| > 0 {
        BodyLinesNonEmpty(t.rows);
        assert lines[0] == body[0];
      }
      JoinEmptyIff(lines, "\n");
    }
  }

  lemma {:induction false} BodyLinesNonEmpty(rows: seq<Row>)
    ensures BodyLines(rows).Ok? ==> forall i :: 0 <= i < |BodyLines(rows).value| ==> |BodyLines(rows).value[i]| >= 4
  {
    if |rows| > 0 {
      BodyLinesNonEmpty(rows[..|rows| - 1]);
    }
  }

  /** Sum of the positive colspans of the cells (absent means 1). */
  function Width(cells: seq<Cell>): int
  {
    if |cells| == 0 then 0
    else
      var c := cells[|cells| - 1];
      var n := if c.colspan.None? then 1 else ParseInt(c.colspan.value).GetOr(0);
      Width(cells[..|cells| - 1]) + (if n < 0 then 0 else n)
  }

  /** An expanded row has one text per column the colspans claim, and every
      text is some cell's stripped text. */
  lemma {:induction false} ExpandRowShape(cells: seq<Cell>)
    requires ExpandRow(cells).Ok?
    ensures |ExpandRow(cells).value| == Width(cells)
    ensures forall k :: 0 <= k < |ExpandRow(cells).value| ==>
              exists j :: 0 <= j < |cells| && ExpandRow(cells).value[k] == Strip(cells[j].text)
  {
    if |cells| > 0 {
      var init := cells[..|cells| - 1];
      var c := cells[|cells| - 1];
      ExpandRowShape(init);
      var prefix := ExpandRow(init).value;
      var copies := CellCopies(c).value;
      var r := ExpandRow(cells).value;
      assert r == prefix + copies;
      forall k | 0 <= k < |r|
        ensures exists j :: 0 <= j < |cells| && r[k] == Strip(cells[j].text)
      {
        if k < |prefix| {
          var j :| 0 <= j < |init| && prefix[k] == Strip(init[j].text);
          assert cells[j] == init[j];
        } else {
          assert r[k] == copies[k - |prefix|] == Strip(cells[|cells| - 1].text);
        }
      }
    }
  }

  // ===========================================================================
  // Scraping a page

  /** Text-bearing elements: `p`, `article` and `h1`..`h6`. */
  datatype TextTag = Paragraph | Article | Heading(level: nat)

  /** The elements `find_all` returns, in document order, once `script` and
      `style` elements are removed. */
  datatype Element =
    | TableElement(table: HtmlTable)
    | ImageElement(src: Option<string>)
    | TextElement(tag: TextTag, text: string)

  /** A parsed page: `None` when it has no `title`, `Some(None)` when the
      title has no single string. */
  datatype Page = Page(title: Option<Option<string>>, elements: seq<Element>)

  /** An HTTP response: status, the `content-type` header if any, the body. */
  datatype HttpResponse = HttpResponse(status: int, contentType: Option<string>, content: Bytes)

  /** The library calls the image handling makes: an HTTP GET (which may
      raise), `urljoin`, and `base64.b64decode` (which may raise). */
  datatype Web = Web(
    fetch: string -> Result<HttpResponse>,
    urljoin: (string, string) -> string,
    b64decode: string -> Option<Bytes>)

  /** What every element of one run shares. */
  datatype Ctx = Ctx(ep: Endpoint, denied: map<string, string>, pageUrl: string, documentId: string, web: Web)

  /** The extensions kept as they are; any other becomes `png`. */
  const KnownImageExts: seq<string> := ["jpeg", "jpg", "png", "gif"]

  function NormalizeExt(ext: string): (e: string)
    ensures e in KnownImageExts
    ensures ext in KnownImageExts ==> e == ext
  {
    if ext in KnownImageExts then ext else "png"
  }

  /** `f"image_{n}.{ext}"`. */
  function ImageFileName(n: nat, ext: string): string
  {
    "image_" + Digits(n) + "." + ext
  }

  function ImageKey(documentId: string, filename: string): string
  {
    SourcesKey("web", "extracted_images", documentId, filename)
  }

  /** `f` is the name given to the `n`-th stored image: `image_{n}.` and an extension. */
  predicate NamesImage(f: string, n: nat)
  {
    StartsWith(f, "image_" + Digits(n) + ".")
  }

  lemma ImageFileNameNamesImage(n: nat, ext: string)
    ensures NamesImage(ImageFileName(n, ext), n)
  {
    var f := ImageFileName(n, ext);
    assert f[..|"image_" + Digits(n) + "."|] == "image_" + Digits(n) + ".";
  }

  /** A file name carries one image number only. */
  lemma NamesImageUnique(f: string, a: nat, b: nat)
    requires NamesImage(f, a) && NamesImage(f, b)
    ensures a == b
  {
    var da, db := Digits(a), Digits(b);
    var ra, rb := f[|"image_" + da + "."|..], f[|"image_" + db + "."|..];
    assert f == "image_" + da + "." + ra by {
      assert f == f[..|"image_" + da + "."|] + ra;
    }
    assert f == "image_" + db + "." + rb by {
      assert f == f[..|"image_" + db + "."|] + rb;
    }
    DropImagePrefix(f, da, ra);
    DropImagePrefix(f, db, rb);
    assert '.' !in da by {
      assert forall i :: 0 <= i < |da| ==> IsDigit(da[i]);
    }
    assert '.' !in db by {
      assert forall i :: 0 <= i < |db| ==> IsDigit(db[i]);
    }
    SplitAtFirst(da, ra, db, rb, '.');
    DigitsInjective(a, b);
  }

  lemma DropImagePrefix(f: string, d: string, r: string)
    requires f == "image_" + d + "." + r
    ensures f[6..] == d + ['.'] + r
  {
    assert "image_" + d + "." + r == "image_" + (d + ['.'] + r);
  }

  lemma ImageKeyInjective(documentId: string, f: string, g: string)
    requires ImageKey(documentId, f) == ImageKey(documentId, g)
    ensures f == g
  {
    SourcesKeyInjective("web", "extracted_images", documentId, f, g);
  }

  /** Markdown and images live under different prefixes. */
  lemma MarkdownKeyIsNoImageKey(netloc: string, timestamp: string, documentId: string, f: string)
    ensures MarkdownKey(netloc, timestamp) != ImageKey(documentId, f)
  {
    SourcesKeyCategory("web", "extracted_markdown", WebDocumentId(netloc, timestamp), WebDomain(netloc) + ".md", 10);
    SourcesKeyCategory("web", "extracted_images", documentId, f, 10);
  }

  /** What handling one `img` did: nothing; stored the image under
      `filename` at `url`; or appended `text` after a failure, possibly
      after an upload the store refused. */
  datatype ImageOutcome =
    | NoImage
    | Stored(filename: string, url: string, put: Put)
    | Fallback(text: string, attempted: seq<Put>)

  function OutcomePuts(o: ImageOutcome): seq<Put>
  {
    match o
    case NoImage => []
    case Stored(_, _, p) => [p]
    case Fallback(_, ps) => ps
  }

  /** An image outcome keeps the bookkeeping honest: a stored image is the
      next numbered one, its URL is that of its key and the store took it;
      a failed upload was refused by the store. */
  predicate OutcomeSound(c: Ctx, count: nat, o: ImageOutcome)
  {
    && (o.Stored? ==> (NamesImage(o.filename, count + 1)
                       && o.put.key == ImageKey(c.documentId, o.filename)
                       && o.put.key !in c.denied
                       && o.url == ObjectUrl(c.ep, o.put.key)))
    && (o.Fallback? ==> forall i :: 0 <= i < |o.attempted| ==> o.attempted[i].key in c.denied)
  }

  /** Upload image bytes as the next numbered image; `shown` is the source
      text echoed into the Markdown if the upload raises. */
  function StoreImage(c: Ctx, count: nat, data: Bytes, ext: string, shown: string): (o: ImageOutcome)
    ensures o.Stored? || o.Fallback?
    ensures o.Stored? ==> (o.filename == ImageFileName(count + 1, ext)
                           && o.put.key == ImageKey(c.documentId, o.filename)
                           && o.put.key !in c.denied
                           && o.url == ObjectUrl(c.ep, o.put.key))
    ensures o.Fallback? ==> o.text == "\n" + shown + "\n\n"
    ensures OutcomeSound(c, count, o)
  {
    ImageFileNameNamesImage(count + 1, ext);
    var filename := ImageFileName(count + 1, ext);
    var key := ImageKey(c.documentId, filename);
    var put := Put(key, ImageObject(data, ext));
    if key in c.denied then Fallback("\n" + shown + "\n\n", [put])
    else Stored(filename, ObjectUrl(c.ep, key), put)
  }

  /** An `img` whose `src` is a `data:image/` URL: its media type after the
      `:` and the base64 text after the first `,`. */
  function DataImageOutcome(c: Ctx, count: nat, s: string): (o: ImageOutcome)
    ensures OutcomeSound(c, count, o)
    ensures o.Fallback? ==> o.text == "\n" + s + "\n\n"
    ensures !o.NoImage?
  {
    var header := Split(Split(s, ';')[0], ':');
    var parts := Split(s, ',');
    if |header| < 2 || |parts| < 2 then Fallback("\n" + s + "\n\n", [])
    else
      var ext := NormalizeExt(LastPart(header[1], '/'));
      match c.web.b64decode(parts[1])
      case None => Fallback("\n" + s + "\n\n", [])
      case Some(data) => StoreImage(c, count, data, ext, s)
  }

  /** An `img` with any other `src`: resolved against the page unless it
      is absolute, downloaded, and stored only on status 200. */
  function LinkedImageOutcome(c: Ctx, count: nat, s: string): (o: ImageOutcome)
    ensures OutcomeSound(c, count, o)
    ensures o.NoImage? <==> c.web.fetch(if StartsWith(s, "http://") || StartsWith(s, "https://") then s
                                          else c.web.urljoin(c.pageUrl, s)).Ok?
                              && c.web.fetch(if StartsWith(s, "http://") || StartsWith(s, "https://") then s
                                             else c.web.urljoin(c.pageUrl, s)).value.status != 200
  {
    var s' := if StartsWith(s, "http://") || StartsWith(s, "https://") then s else c.web.urljoin(c.pageUrl, s);
    match c.web.fetch(s')
    case Err(_) => Fallback("\n" + s' + "\n\n", [])
    case Ok(resp) =>
      if resp.status != 200 then NoImage
      else
        var ct := resp.contentType.GetOr("");
        var ext := NormalizeExt(if '/' in ct then LastPart(ct, '/') else "png");
        StoreImage(c, count, resp.content, ext, s')
  }

  /** The `img` branch of the scrape loop, with `count == len(image_urls)`. */
  function ImageOutcomeOf(c: Ctx, count: nat, src: Option<string>): (o: ImageOutcome)
    ensures OutcomeSound(c, count, o)
    ensures (src.None? || src == Some("")) ==> o.NoImage?
  {
    if src.None? || src.value == "" then NoImage
    else if StartsWith(src.value, "data:image/") then DataImageOutcome(c, count, src.value)
    else LinkedImageOutcome(c, count, src.value)
  }

  /** The Markdown a text element adds: none when its stripped text is empty. */
  function TextFragment(tag: TextTag, text: string): (r: Option<string>)
    ensures r.None? <==> Strip(text) == ""
  {
    var t := Strip(text);
    if t == "" then None
    else match tag
      case Heading(level) => Some(Repeat('#', level) + " " + t + "\n\n")
      case _ => Some(t + "\n\n")
  }

  /** The state of the scrape loop: Markdown fragments, `image_urls`, and
      every put attempted so far. */
  datatype Scan = Scan(md: seq<string>, images: Dict<Value>, puts: seq<Put>)

  /** The scan after an `img` was handled. */
  function AfterImage(s: Scan, o: ImageOutcome): Scan
  {
    match o
    case NoImage => s
    case Stored(f, u, p) => Scan(s.md + ["![Image](" + u + ")"], Set(s.images, f, StrSet({u})), s.puts + [p])
    case Fallback(text, ps) => s.(md := s.md + [text], puts := s.puts + ps)
  }

  /** The scan after a table was converted. */
  function AfterTable(s: Scan, m: string): Scan
  {
    if m == "" then s else s.(md := s.md + ["\n" + m + "\n\n"])
  }

  /** One iteration of the element loop; only a table can raise. */
  function Step(c: Ctx, s: Scan, e: Element): Result<Scan>
  {
    match e
    case TableElement(t) =>
      (match TableMarkdown(t)
       case Err(m) => Err(m)
       case Ok(m) => Ok(AfterTable(s, m)))
    case ImageElement(src) => Ok(AfterImage(s, ImageOutcomeOf(c, |s.images|, src)))
    case TextElement(tag, text) =>
      Ok(match TextFragment(tag, text)
         case None => s
         case Some(f) => s.(md := s.md + [f]))
  }

  /** Where the loop is after some elements, and the message that stopped it, if any. */
  datatype Run = Run(scan: Scan, error: Option<string>)

  /** The loop after one more element: a stopped loop stays stopped. */
  function Advance(c: Ctx, prev: Run, e: Element): Run
  {
    if prev.error.Some? then prev
    else match Step(c, prev.scan, e)
      case Err(m) => Run(prev.scan, Some(m))
      case Ok(next) => Run(next, None)
  }

  function Steps(c: Ctx, s: Scan, es: seq<Element>): Run
  {
    if |es| == 0 then Run(s, None) else Advance(c, Steps(c, s, es[..|es| - 1]), es[|es| - 1])
  }

  lemma {:induction false} StepsStopped(c: Ctx, s: Scan, es: seq<Element>, k: nat)
    requires k <= |es| && Steps(c, s, es[..k]).error.Some?
    ensures Steps(c, s, es) == Steps(c, s, es[..k])
    decreases |es|
  {
    if k < |es| {
      assert es[..|es| - 1][..k] == es[..k];
      StepsStopped(c, s, es[..|es| - 1], k);
    } else {
      assert es[..k] == es;
    }
  }

  lemma StepsNext(c: Ctx, s: Scan, es: seq<Element>, i: nat)
    requires i < |es|
    ensures Steps(c, s, es[..i + 1]) == Advance(c, Steps(c, s, es[..i]), es[i])
  {
    assert es[..i + 1][..i] == es[..i];
    assert es[..i + 1][i] == es[i];
  }

  lemma {:induction false} WrittenRefused(objects: map<string, StoredObject>, denied: map<string, string>, puts: seq<Put>)
    requires forall i :: 0 <= i < |puts| ==> puts[i].key in denied
    ensures Written(objects, denied, puts) == objects
  {
    if |puts| > 0 {
      WrittenRefused(objects, denied, puts[..|puts| - 1]);
    }
  }

  /** Every entry of `image_urls` is the image numbered by its position,
      maps to the set holding its URL, and its key holds an object. */
  ghost predicate Listed(c: Ctx, objects0: map<string, StoredObject>, s: Scan)
  {
    forall j :: 0 <= j < |s.images| ==>
      && NamesImage(s.images[j].0, j + 1)
      && s.images[j].1 == StrSet({ObjectUrl(c.ep, ImageKey(c.documentId, s.images[j].0))})
      && ImageKey(c.documentId, s.images[j].0) in Written(objects0, c.denied, s.puts)
  }

  lemma ListedUnique(c: Ctx, objects0: map<string, StoredObject>, s: Scan)
    requires Listed(c, objects0, s)
    ensures UniqueKeys(s.images)
  {
    forall i, j | 0 <= i < j < |s.images|
      ensures s.images[i].0 != s.images[j].0
    {
      if s.images[i].0 == s.images[j].0 {
        NamesImageUnique(s.images[i].0, i + 1, j + 1);
      }
    }
  }

  lemma StoredKeepsListed(c: Ctx, objects0: map<string, StoredObject>, s: Scan, o: ImageOutcome)
    requires Listed(c, objects0, s) && o.Stored? && OutcomeSound(c, |s.images|, o)
    ensures Listed(c, objects0, AfterImage(s, o))
  {
    var n := |s.images|;
    forall j | 0 <= j < n
      ensures s.images[j].0 != o.filename
    {
      if s.images[j].0 == o.filename {
        NamesImageUnique(o.filename, j + 1, n + 1);
      }
    }
    assert !HasKey(s.images, o.filename);
    var s' := AfterImage(s, o);
    assert s'.images == s.images + [(o.filename, StrSet({o.url}))];
    WrittenAppend(objects0, c.denied, s.puts, o.put);
    var w := Written(objects0, c.denied, s'.puts);
    forall j | 0 <= j < n + 1
      ensures && NamesImage(s'.images[j].0, j + 1)
              && s'.images[j].1 == StrSet({ObjectUrl(c.ep, ImageKey(c.documentId, s'.images[j].0))})
              && ImageKey(c.documentId, s'.images[j].0) in w
    {
      if j < n {
        assert s'.images[j] == s.images[j];
      } else {
        assert s'.images[j] == (o.filename, StrSet({o.url}));
      }
    }
  }

  lemma StepKeepsListed(c: Ctx, objects0: map<string, StoredObject>, s: Scan, e: Element)
    requires Listed(c, objects0, s) && Step(c, s, e).Ok?
    ensures Listed(c, objects0, Step(c, s, e).value)
  {
    if e.ImageElement? {
      var o := ImageOutcomeOf(c, |s.images|, e.src);
      if o.Stored? {
        StoredKeepsListed(c, objects0, s, o);
      } else if o.Fallback? {
        WrittenRefused(Written(objects0, c.denied, s.puts), c.denied, o.attempted);
        WrittenConcat(objects0, c.denied, s.puts, o.attempted);
      }
    }
  }

  lemma {:induction false} StepsKeepListed(c: Ctx, objects0: map<string, StoredObject>, s: Scan, es: seq<Element>)
    requires Listed(c, objects0, s)
    ensures Listed(c, objects0, Steps(c, s, es).scan)
  {
    if |es| > 0 {
      StepsKeepListed(c, objects0, s, es[..|es| - 1]);
      var prev := Steps(c, s, es[..|es| - 1]);
      if prev.error.None? && Step(c, prev.scan, es[|es| - 1]).Ok? {
        StepKeepsListed(c, objects0, prev.scan, es[|es| - 1]);
      }
    }
  }

  const ProcessFailure := "Failed to process website: "

  /** `str()` of the `AttributeError` raised when the title has no single string. */
  const NoneStripError := "'NoneType' object has no attribute 'strip'"

  function InitialMarkdown(p: Page): seq<string>
    requires p.title != Some(None)
  {
    if p.title.Some? then ["# " + Strip(p.title.value.value) + "\n\n"] else []
  }

  function MarkdownKey(netloc: string, timestamp: string): string
  {
    SourcesKey("web", "extracted_markdown", WebDocumentId(netloc, timestamp), WebDomain(netloc) + ".md")
  }

  /** The dictionary `scrape_website` returns. */
  function WebResponse(documentId: string, domain: string, markdownUrl: string, images: Dict<Value>): Value
  {
    Obj([("source_type", Str("web")),
         ("document_id", Str(documentId)),
         ("urls", Obj([("markdown", Str(markdownUrl)), ("images", Obj(images))])),
         ("metadata", Obj([("source_type", Str("web")),
                           ("domain", Str(domain)),
                           ("content_type", Str("webpage")),
                           ("image_count", Int(|images|))]))])
  }

  /** After the element loop: the Markdown upload and the response, or the
      error that stopped the loop. */
  function FinishScrape(c: Ctx, netloc: string, timestamp: string, run: Run): (Result<Value>, seq<Put>)
  {
    if run.error.Some? then (Err(ProcessFailure + run.error.value), run.scan.puts)
    else
      var key := MarkdownKey(netloc, timestamp);
      var puts := run.scan.puts + [Put(key, MarkdownObject(Join(run.scan.md, "\n")))];
      if key in c.denied then (Err(ProcessFailure + MarkdownUploadError(c.denied[key])), puts)
      else (Ok(WebResponse(c.documentId, WebDomain(netloc), ObjectUrl(c.ep, key), run.scan.images)), puts)
  }

  function ScrapeContext(ep: Endpoint, denied: map<string, string>, url: string, netloc: string, timestamp: string,
                         web: Web): Ctx
  {
    Ctx(ep, denied, url, WebDocumentId(netloc, timestamp), web)
  }

  /** What `scrape_website` returns or raises, and every put it attempts,
      given what fetching and parsing the page gave. */
  function Scrape(ep: Endpoint, denied: map<string, string>, url: string, netloc: string, timestamp: string,
                  page: Result<Page>, web: Web): (Result<Value>, seq<Put>)
  {
    match page
    case Err(m) => (Err(ProcessFailure + m), [])
    case Ok(p) =>
      if p.title == Some(None) then (Err(ProcessFailure + NoneStripError), [])
      else
        var c := ScrapeContext(ep, denied, url, netloc, timestamp, web);
        FinishScrape(c, netloc, timestamp, Steps(c, Scan(InitialMarkdown(p), [], []), p.elements))
  }

  /** The upload at the end of both image branches. */
  method StoreImageInBucket(bucket: Bucket, c: Ctx, count: nat, data: Bytes, ext: string, shown: string)
    returns (o: ImageOutcome)
    requires bucket.endpoint == c.ep && bucket.denied == c.denied
    modifies bucket
    ensures o == StoreImage(c, count, data, ext, shown)
    ensures bucket.objects == Written(old(bucket.objects), bucket.denied, OutcomePuts(o))
  {
    var filename := ImageFileName(count + 1, ext);
    var key := ImageKey(c.documentId, filename);
    var put := Put(key, ImageObject(data, ext));
    assert [put][..0] == [];
    var uploaded := bucket.UploadImageToS3(data, key, ext);
    if uploaded.Err? {
      o := Fallback("\n" + shown + "\n\n", [put]);
    } else {
      o := Stored(filename, uploaded.value, put);
    }
  }

  method HandleDataImage(bucket: Bucket, c: Ctx, count: nat, s: string) returns (o: ImageOutcome)
    requires bucket.endpoint == c.ep && bucket.denied == c.denied
    modifies bucket
    ensures o == DataImageOutcome(c, count, s)
    ensures bucket.objects == Written(old(bucket.objects), bucket.denied, OutcomePuts(o))
  {
    var header := Split(Split(s, ';')[0], ':');
    if |header| < 2 {
      return Fallback("\n" + s + "\n\n", []);
    }
    var ext := LastPart(header[1], '/');
    if ext !in ["jpeg", "jpg", "png", "gif"] {
      ext := "png";
    }
    var parts := Split(s, ',');
    if |parts| < 2 {
      return Fallback("\n" + s + "\n\n", []);
    }
    var decoded := c.web.b64decode(parts[1]);
    if decoded.None? {
      return Fallback("\n" + s + "\n\n", []);
    }
    o := StoreImageInBucket(bucket, c, count, decoded.value, ext, s);
  }

  method HandleLinkedImage(bucket: Bucket, c: Ctx, count: nat, s: string) returns (o: ImageOutcome)
    requires bucket.endpoint == c.ep && bucket.denied == c.denied
    modifies bucket
    ensures o == LinkedImageOutcome(c, count, s)
    ensures bucket.objects == Written(old(bucket.objects), bucket.denied, OutcomePuts(o))
  {
    var src := s;
    if !(StartsWith(src, "http://") || StartsWith(src, "https://")) {
      src := c.web.urljoin(c.pageUrl, src);
    }
    var response := c.web.fetch(src);
    if response.Err? {
      return Fallback("\n" + src + "\n\n", []);
    }
    if response.value.status != 200 {
      return NoImage;
    }
    var ct := response.value.contentType.GetOr("");
    var ext := if '/' in ct then LastPart(ct, '/') else "png";
    if ext !in ["jpeg", "jpg", "png", "gif"] {
      ext := "png";
    }
    o := StoreImageInBucket(bucket, c, count, response.value.content, ext, src);
  }

  /** The `img` branch, against the bucket. */
  method HandleImage(bucket: Bucket, c: Ctx, count: nat, src: Option<string>) returns (o: ImageOutcome)
    requires bucket.endpoint == c.ep && bucket.denied == c.denied
    modifies bucket
    ensures o == ImageOutcomeOf(c, count, src)
    ensures bucket.objects == Written(old(bucket.objects), bucket.denied, OutcomePuts(o))
  {
    if src.None? || src.value == "" {
      return NoImage;
    }
    if StartsWith(src.value, "data:image/") {
      o := HandleDataImage(bucket, c, count, src.value);
    } else {
      o := HandleLinkedImage(bucket, c, count, src.value);
    }
  }

  /** One iteration of the element loop against the bucket; `err` is the
      message of a table that raised. */
  method ScrapeElement(bucket: Bucket, c: Ctx, md: seq<string>, images: Dict<Value>, ghost puts: seq<Put>,
                       ghost objects0: map<string, StoredObject>, e: Element)
    returns (md': seq<string>, images': Dict<Value>, ghost puts': seq<Put>, err: Option<string>)
    requires bucket.endpoint == c.ep && bucket.denied == c.denied
    requires bucket.objects == Written(objects0, bucket.denied, puts)
    modifies bucket
    ensures Advance(c, Run(Scan(md, images, puts), None), e) == Run(Scan(md', images', puts'), err)
    ensures bucket.objects == Written(objects0, bucket.denied, puts')
  {
    images', puts', err := images, puts, None;
    match e {
      case TableElement(t) =>
        md', err := ScrapeTable(c, md, images, puts, t);
      case ImageElement(src) =>
        md', images', puts' := ScrapeImage(bucket, c, md, images, puts, objects0, src);
      case TextElement(tag, text) =>
        md' := ScrapeText(c, md, images, puts, tag, text);
    }
  }

  /** A `table` element: its Markdown, set off by blank lines, unless it is
      empty; the message when the conversion raised. */
  method ScrapeTable(ghost c: Ctx, md: seq<string>, ghost images: Dict<Value>, ghost puts: seq<Put>, t: HtmlTable)
    returns (md': seq<string>, err: Option<string>)
    ensures Advance(c, Run(Scan(md, images, puts), None), TableElement(t)) == Run(Scan(md', images, puts), err)
  {
    md', err := md, None;
    var table := ConvertTableToMarkdown(t);
    if table.Err? {
      return md, Some(table.msg);
    }
    if table.value != "" {
      md' := md + ["\n" + table.value + "\n\n"];
    }
  }

  /** An `img` element: handled against the bucket. */
  method ScrapeImage(bucket: Bucket, c: Ctx, md: seq<string>, images: Dict<Value>, ghost puts: seq<Put>,
                     ghost objects0: map<string, StoredObject>, src: Option<string>)
    returns (md': seq<string>, images': Dict<Value>, ghost puts': seq<Put>)
    requires bucket.endpoint == c.ep && bucket.denied == c.denied
    requires bucket.objects == Written(objects0, bucket.denied, puts)
    modifies bucket
    ensures Step(c, Scan(md, images, puts), ImageElement(src)) == Ok(Scan(md', images', puts'))
    ensures bucket.objects == Written(objects0, bucket.denied, puts')
  {
    md', images', puts' := md, images, puts;
    var o := HandleImage(bucket, c, |images|, src);
    WrittenConcat(objects0, bucket.denied, puts, OutcomePuts(o));
    match o {
      case NoImage =>
      case Stored(f, u, put) =>
        images' := Set(images, f, StrSet({u}));
        md' := md + ["![Image](" + u + ")"];
        puts' := puts + [put];
      case Fallback(text, attempted) =>
        md' := md + [text];
        puts' := puts + attempted;
    }
  }

  /** A heading or a paragraph: its stripped text, a heading prefixed by
      its level's `#`s; nothing when the text strips to empty. */
  method ScrapeText(ghost c: Ctx, md: seq<string>, ghost images: Dict<Value>, ghost puts: seq<Put>,
                    tag: TextTag, text: string)
    returns (md': seq<string>)
    ensures Step(c, Scan(md, images, puts), TextElement(tag, text)) == Ok(Scan(md', images, puts))
  {
    md' := md;
    var t := Strip(text);
    if t != "" {
      match tag {
        case Heading(level) =>
          md' := md + [Repeat('#', level) + " " + t + "\n\n"];
        case _ =>
          md' := md + [t + "\n\n"];
      }
    }
  }

  /** The element loop of `scrape_website`. */
  method ScrapeElements(bucket: Bucket, c: Ctx, md0: seq<string>, elements: seq<Element>)
    returns (md: seq<string>, images: Dict<Value>, ghost puts: seq<Put>, err: Option<string>)
    requires bucket.endpoint == c.ep && bucket.denied == c.denied
    modifies bucket
    ensures Steps(c, Scan(md0, [], []), elements) == Run(Scan(md, images, puts), err)
    ensures bucket.objects == Written(old(bucket.objects), bucket.denied, puts)
  {
    ghost var s0 := Scan(md0, [], []);
    md, images, puts, err := md0, [], [], None;
    assert elements[..0] == [];
    var i := 0;
    while i < |elements|
      invariant 0 <= i <= |elements|
      invariant Steps(c, s0, elements[..i]) == Run(Scan(md, images, puts), None) && err.None?
      invariant bucket.objects == Written(old(bucket.objects), bucket.denied, puts)
    {
      StepsNext(c, s0, elements, i);
      md, images, puts, err := ScrapeElement(bucket, c, md, images, puts, old(bucket.objects), elements[i]);
      if err.Some? {
        StepsStopped(c, s0, elements, i + 1);
        return;
      }
      i := i + 1;
    }
    assert elements[..|elements|] == elements;
  }

  /** `scrape_website`: the page has already been fetched and parsed into
      `page` (an error when the request or `raise_for_status` raised);
      `netloc` is `urlparse(url).netloc` and `timestamp` the formatted clock. */
  method ScrapeWebsite(bucket: Bucket, url: string, netloc: string, timestamp: string, page: Result<Page>, web: Web)
    returns (r: Result<Value>)
    modifies bucket
    ensures r == Scrape(bucket.endpoint, bucket.denied, url, netloc, timestamp, page, web).0
    ensures bucket.objects == Written(old(bucket.objects), bucket.denied,
                                      Scrape(bucket.endpoint, bucket.denied, url, netloc, timestamp, page, web).1)
  {
    var domain := ReplaceChar(netloc, '.', '_');
    var documentId := domain + "_" + timestamp;
    if page.Err? {
      return Err(ProcessFailure + page.msg);
    }
    var p := page.value;
    if p.title == Some(None) {
      return Err(ProcessFailure + NoneStripError);
    }
    var md: seq<string> := [];
    if p.title.Some? {
      md := md + ["# " + Strip(p.title.value.value) + "\n\n"];
    }
    assert md == InitialMarkdown(p);
    var c := Ctx(bucket.endpoint, bucket.denied, url, documentId, web);
    assert c == ScrapeContext(bucket.endpoint, bucket.denied, url, netloc, timestamp, web);
    var images: Dict<Value>;
    ghost var puts: seq<Put>;
    var err: Option<string>;
    md, images, puts, err := ScrapeElements(bucket, c, md, p.elements);
    if err.Some? {
      return Err(ProcessFailure + err.value);
    }
    var key := SourcesKey("web", "extracted_markdown", documentId, domain + ".md");
    var uploaded := bucket.UploadMarkdownToS3(Join(md, "\n"), key);
    WrittenAppend(old(bucket.objects), bucket.denied, puts, Put(key, MarkdownObject(Join(md, "\n"))));
    if uploaded.Err? {
      return Err(ProcessFailure + uploaded.msg);
    }
    r := Ok(WebResponse(documentId, domain, uploaded.value, images));
  }

  /** A successful scrape lists `image_1`, `image_2`, ... in order, each
      mapped to the URL of an object the bucket now holds, and its Markdown
      URL names an object holding the page's Markdown. */
  lemma ScrapedContentIsStored(ep: Endpoint, denied: map<string, string>, url: string, netloc: string,
                               timestamp: string, p: Page, web: Web, objects0: map<string, StoredObject>)
    requires Scrape(ep, denied, url, netloc, timestamp, Ok(p), web).0.Ok?
    ensures p.title != Some(None)
    ensures var c := ScrapeContext(ep, denied, url, netloc, timestamp, web);
            var run := Steps(c, Scan(InitialMarkdown(p), [], []), p.elements);
            var images := run.scan.images;
            var puts := Scrape(ep, denied, url, netloc, timestamp, Ok(p), web).1;
            && run.error.None?
            && Scrape(ep, denied, url, netloc, timestamp, Ok(p), web).0.value
               == WebResponse(c.documentId, WebDomain(netloc), ObjectUrl(ep, MarkdownKey(netloc, timestamp)), images)
            && MarkdownKey(netloc, timestamp) in Written(objects0, denied, puts)
            && Written(objects0, denied, puts)[MarkdownKey(netloc, timestamp)] == MarkdownObject(Join(run.scan.md, "\n"))
            && UniqueKeys(images)
            && forall j :: 0 <= j < |images| ==>
                 && NamesImage(images[j].0, j + 1)
                 && images[j].1 == StrSet({ObjectUrl(ep, ImageKey(c.documentId, images[j].0))})
                 && ImageKey(c.documentId, images[j].0) in Written(objects0, denied, puts)
  {
    var c := ScrapeContext(ep, denied, url, netloc, timestamp, web);
    var s0 := Scan(InitialMarkdown(p), [], []);
    var run := Steps(c, s0, p.elements);
    StepsKeepListed(c, objects0, s0, p.elements);
    ListedUnique(c, objects0, run.scan);
    var key := MarkdownKey(netloc, timestamp);
    var mdPut := Put(key, MarkdownObject(Join(run.scan.md, "\n")));
    WrittenAppend(objects0, denied, run.scan.puts, mdPut);
    forall j | 0 <= j < |run.scan.images|
      ensures ImageKey(c.documentId, run.scan.images[j].0) != key
    {
      MarkdownKeyIsNoImageKey(netloc, timestamp, c.documentId, run.scan.images[j].0);
    }
  }
}
