# Content Extraction Application — a Dafny model

This project models the core of the Content Extraction Application. That
system turns a PDF upload or a website address into Markdown plus images.
It stores both in an S3 bucket under a fixed key layout and answers with the
URLs.

- **Web pages** go through one of three processors:
  - the open-source scraper, which uses BeautifulSoup and writes its own table
    converter;
  - the enterprise crawler, whose actor results are turned into Markdown, with
    the images copied into the bucket and the references rewritten;
  - the Docling converter, run after the page's `<img>` tags are rewritten in
    place.
- **PDFs** go through one of three processors:
  - the open-source processor, which uses PyMuPDF tables, images and text
    blocks;
  - the enterprise processor, which uses the layout service's pages and tables
    and PyMuPDF images, assembled in page order;
  - Docling, whose Markdown export is stored under a key naming the file.
- **The FastAPI handlers** dispatch on the category named in the request.
- **The Streamlit client** validates uploads and URLs, builds the image link
  panel and names the Markdown download.

## How the model is organised

- **The bucket.** `Storage.Bucket` is a class whose `objects` map the upload
  helpers update in place. Its `denied` map lists the keys whose writes the
  store refuses, together with the error text the store gives, and its
  `unreadable` map does the same for reads. Every
  processor is proved against a spec function that returns the result (or
  the raised message) and the sequence of puts it attempts. Its new bucket
  state is `Written(old objects, denied, puts)`.
- **External engines are inputs.** PyMuPDF, the layout service, Docling,
  the HTTP fetches, `urlparse`, `urljoin`, base64 and the crawler's
  responses are supplied as parameters or arrow-typed functions.
- **Values.** Python dictionaries are ordered association lists
  (`Values.Dict`), because insertion order is visible in the client's link
  numbering. Responses are JSON-like `Values.Value` trees.
- **Loops match the source.** Each loop of the source is a `method` with loop
  invariants, proved against an accumulating spec function that has the same
  shape as the loop. The lemmas then state what the source promises about
  that function.
- **Python `.lower()`** is modelled as ASCII lower-casing (`Strings.Lower`).
  Every comparison the code makes after lower-casing is against an ASCII
  literal ("open source", "docling", "enterprise", ".pdf" and the image
  extensions). Python also maps a few non-ASCII characters to ASCII ones (the
  Kelvin sign to `k`, dotted capital I to `i` plus a combining mark), but none
  of the literals compared contains `k`, and the second adds a non-ASCII
  character. So the outcomes agree on every input. `Strings` and `Values`
  hold helpers for Python's string and dictionary operations, which the rows
  below use.

## Model

| member | source | states |
|---|---|---|
| Storage.Utf8Char | backend/utils/s3.py:207 | one character encodes to 1 to 4 bytes, and ASCII to its own code |
| Storage.Utf8 | backend/utils/s3.py:207 | the UTF-8 body of a Markdown upload is between one and four bytes per character |
| Storage.ObjectUrl | backend/utils/s3.py:69 | the public URL of an upload ends with `/` and its key |
| Storage.GlobalUrl | backend/utils/s3.py:93 | the region-less URL of a buffer upload ends with `/` and its key |
| Storage.ImageContentType | backend/utils/s3.py:100 | `image/<ext>` exactly for jpeg, jpg and png; `application/octet-stream` for every other extension |
| Storage.Write | backend/utils/s3.py:62-67 | a refused put leaves the bucket unchanged; an accepted one stores the object at its key; no other key changes |
| Storage.WrittenAppend | backend/utils/s3.py:62-67 | attempting one more put applies that single write to the bucket as it stands |
| Storage.WrittenConcat | backend/utils/s3.py:62-67 | two runs of puts compose: the bucket after `a + b` is the bucket after `b` applied to the bucket after `a` |
| Storage.WrittenUntouched | backend/utils/s3.py:62-67 | a key that no attempted put names keeps its old object, or stays absent |
| Storage.WrittenLast | backend/utils/s3.py:62-67 | the last accepted put to a key decides what that key holds |
| Storage.FolderPuts | backend/utils/s3.py:33-49 | one empty marker put per folder, in list order |
| Storage.AcceptedPrefix | backend/utils/s3.py:44-53 | the folders written before the first refusal: all of them accepted, and the next one refused |
| Storage.AcceptedPrefixIs | backend/utils/s3.py:44-53 | any position whose folders are all accepted and the next refused is that prefix |
| Storage.SourcesKey | backend/utils/s3.py:169-183 | a `{source}_sources/{category}/{document_id}/{filename}` key ends with its file name |
| Storage.SourcesKeyCategory | backend/utils/s3.py:169-183 | the category sits right after the `{source}_sources/` prefix |
| Storage.SourcesKeyInjective | backend/utils/s3.py:169-183 | within one folder, different file names never share a key |
| Storage.WalkTarget | backend/utils/s3.py:158-183 | any path containing `raw` is skipped; a path containing `extracted_markdown` goes to the Markdown folder as `text/markdown`, even when it also names `extracted_images`; a path naming only `extracted_images` goes to the image folder with the walk's image type; a path naming neither is skipped; the key keeps only the file name |
| Storage.WalkImageContentType | backend/utils/s3.py:173-179 | a lower-cased name ending in `.png` is `image/png`, one ending in `.jpg` or `.jpeg` is `image/jpeg`, any other name with a `.` is `application/octet-stream`, and a name without a `.` is typed as if it were its own extension |
| Storage.Bucket.constructor | backend/utils/s3.py:16-21 | a client over the given bucket contents, endpoint and refusals |
| Storage.Bucket.UploadToS3 | backend/utils/s3.py:55-71 | writes a public-read object, typed only when a type is given; returns its URL or raises the upload error |
| Storage.Bucket.GetFromS3 | backend/utils/s3.py:73-82 | the stored bytes of the key; a read the store refuses fails with the store's text, and a missing key with the no-such-key text, both as `Failed to get file from S3: …` |
| Storage.ReadAfterWrite | backend/utils/s3.py:62-82 | a get right after a put of the same key returns the bytes put, unless the store refuses the read |
| Storage.Bucket.UploadImageBufferToS3 | backend/utils/s3.py:84-95 | writes a non-public `image/png` object and returns the region-less URL |
| Storage.Bucket.UploadImageToS3 | backend/utils/s3.py:97-110 | writes a public image object typed by its extension; returns its URL or raises |
| Storage.Bucket.UploadPdfToS3 | backend/utils/s3.py:112-130 | writes the raw PDF under `pdf_sources/raw/{id}/{name}` and returns a dictionary whose only entry is `raw_pdf` |
| Storage.Bucket.UploadMarkdownToS3 | backend/utils/s3.py:201-212 | writes the UTF-8 text as `text/markdown`; returns its URL or raises the Markdown upload error |
| Storage.Bucket.EnsureStructure | backend/utils/s3.py:31-53 | true exactly when all eight base folders are accepted; the folders up to the first refusal are written, in order |
| Storage.Bucket.WriteFolders | backend/utils/s3.py:44-53 | the same property, for the loop over any folder list |
| Storage.Bucket.WriteFolder | backend/utils/s3.py:44-53 | one accepted folder of the loop: its marker extends the written prefix by one, and the accepted prefix reaches past it |
| DocumentIds.WebDomain | backend/utils/web_processor_open_source.py:59 | the host with every `.` turned into `_`, character by character, with no `.` left |
| DocumentIds.WebDocumentId | backend/utils/web_processor_open_source.py:61 | an id that starts with the domain and `_` and ends with the timestamp |
| Strings.PathName | backend/main.py:45 | the name pathlib gives a path: never holding `/` and never `.`; the text after the last `/` when that is an ordinary component |
| Strings.PathNameSkips | backend/main.py:45 | an empty or `.` last component is skipped, and the name is that of the text before its `/` |
| Strings.PathNameDropsTrailing | backend/main.py:45 | a trailing `/` or `/.` leaves the name unchanged, and a lone `.` has no name |
| Strings.NameOfComponent | backend/main.py:45 | a component without `/` names itself and any path it ends |
| Strings.NameStem | backend/main.py:45 | the name without its last suffix: a prefix of the name, the whole name when it has no `.`, otherwise cut just before a last `.` that neither starts nor ends it |
| Strings.NameStemOfSuffixed | backend/main.py:45 | `base.ext` with a non-empty base and an extension without `.` has the stem `base` |
| Strings.StemOfUpload | backend/utils/pdf_processor_open_source.py:12 | `base.ext` and `dir/base.ext` have the stem `base` |
| Strings.StemDropsTrailing | backend/utils/pdf_processor_docling.py:52 | `report.pdf/` and `report.pdf/.` have the stem of `report.pdf`, and a lone `.` has the stem "" |
| DocumentIds.PdfDocumentId | backend/main.py:44-46 | an id that starts with the stem pathlib gives the file name (`Strings.Stem`) and `_`, and ends with the timestamp |
| DocumentIds.DotAndUnderscoreCollide | backend/utils/web_processor_docling.py:62-64 | every host containing a `.` shares its document id, at every timestamp, with a different host: the one with each `.` written as `_` |
| WebOpenSource.Alignment | backend/utils/web_processor_open_source.py:23-29 | `-:` exactly when the align or style text mentions right; `:-:` exactly for center without right; `-` otherwise |
| WebOpenSource.RowLine | backend/utils/web_processor_open_source.py:33 | a table line opens with `\| ` and closes with ` \|` |
| WebOpenSource.HeaderTexts | backend/utils/web_processor_open_source.py:19-21 | one header text per header cell |
| WebOpenSource.HeaderAlignments | backend/utils/web_processor_open_source.py:22-29 | one recorded alignment per header cell |
| WebOpenSource.HeaderColumns | backend/utils/web_processor_open_source.py:19-29 | column `i` of the header holds cell `i`'s stripped text and that cell's alignment |
| WebOpenSource.SeparatorTokens | backend/utils/web_processor_open_source.py:35 | one separator token per alignment, with `:-:` wrapped once more |
| WebOpenSource.HeaderLines | backend/utils/web_processor_open_source.py:31-35 | two header lines when there are header cells, none otherwise |
| WebOpenSource.ConvertHeader | backend/utils/web_processor_open_source.py:31-35 | the header and separator lines |
| WebOpenSource.HeaderCells | backend/utils/web_processor_open_source.py:16-29 | the header loop collects texts and alignments cell by cell |
| WebOpenSource.RecordAlignment | backend/utils/web_processor_open_source.py:23-29 | the alignment one header cell records |
| WebOpenSource.ExpandCells | backend/utils/web_processor_open_source.py:42-47 | a body row's texts with colspans expanded, or the first `int()` failure |
| WebOpenSource.ExpandRowErrPersists | backend/utils/web_processor_open_source.py:45 | once a colspan fails to parse, the rest of the row does not matter |
| WebOpenSource.ExpandRowShape | backend/utils/web_processor_open_source.py:42-47 | an expanded row has one text per claimed column, each a stripped cell text |
| WebOpenSource.ColspanRepeats | backend/utils/web_processor_open_source.py:45-47 | a colspan of `n` repeats the cell's text `n` times |
| WebOpenSource.RowLines | backend/utils/web_processor_open_source.py:38-50 | a `thead` row or a row without content adds no line |
| WebOpenSource.ConvertRows | backend/utils/web_processor_open_source.py:38-50 | the row loop: the body lines, or the first row's parse error |
| WebOpenSource.BodyLinesNext | backend/utils/web_processor_open_source.py:38-50 | the body lines grow by exactly the next row's output |
| WebOpenSource.BodyLinesErrPersists | backend/utils/web_processor_open_source.py:45 | a parse error in one row ends the conversion |
| WebOpenSource.BodyRows | backend/utils/web_processor_open_source.py:38-40 | no row kept for the body lies in the `thead` |
| WebOpenSource.TheadRowsSkipped | backend/utils/web_processor_open_source.py:38-40 | rows in the `thead` never contribute to the body |
| WebOpenSource.BodyLinesEmptyIff | backend/utils/web_processor_open_source.py:49-50 | no body line exactly when every body row is blank |
| WebOpenSource.BodyLinesNonEmpty | backend/utils/web_processor_open_source.py:50 | every body line is at least the four characters of its borders |
| WebOpenSource.JoinEmptyIff | backend/utils/web_processor_open_source.py:52 | lines that start non-empty join to `''` exactly when there are none |
| WebOpenSource.TableMarkdownEmptyIff | backend/utils/web_processor_open_source.py:52 | the converter returns `''`, which the scraper drops, exactly when there are no header cells and every body row is blank |
| WebOpenSource.ConvertTableToMarkdown | backend/utils/web_processor_open_source.py:9-52 | `convert_table_to_markdown`: the header lines and body lines joined by newlines, or a parse error |
| WebOpenSource.NormalizeExt | backend/utils/web_processor_open_source.py:99-101 | the result is always jpeg, jpg, png or gif; an extension already in that list is kept |
| WebOpenSource.ImageFileNameNamesImage | backend/utils/web_processor_open_source.py:108 | `image_{n}.{ext}` names image number `n` |
| WebOpenSource.NamesImageUnique | backend/utils/web_processor_open_source.py:108 | a file name names only one image number |
| WebOpenSource.DropImagePrefix | backend/utils/web_processor_open_source.py:108 | the text after `image_` is the number, a dot and the extension |
| WebOpenSource.ImageKeyInjective | backend/utils/web_processor_open_source.py:111 | distinct image file names get distinct keys |
| WebOpenSource.MarkdownKeyIsNoImageKey | backend/utils/web_processor_open_source.py:156 | the Markdown never lands on an image's key |
| WebOpenSource.StoreImage | backend/utils/web_processor_open_source.py:108-118 | a stored image is the next numbered one at its own key and URL; a refused upload falls back to the source text |
| WebOpenSource.DataImageOutcome | backend/utils/web_processor_open_source.py:94-118 | a `data:image/` source is always stored or falls back to its text, never skipped |
| WebOpenSource.LinkedImageOutcome | backend/utils/web_processor_open_source.py:120-140 | a linked image is skipped exactly when its (resolved) URL does not answer 200 |
| WebOpenSource.ImageOutcomeOf | backend/utils/web_processor_open_source.py:90-144 | an `img` without a non-empty `src` adds nothing |
| WebOpenSource.TextFragment | backend/utils/web_processor_open_source.py:146-153 | a text element adds a fragment exactly when its stripped text is non-empty |
| WebOpenSource.StepsNext | backend/utils/web_processor_open_source.py:84 | the element loop advances one element at a time |
| WebOpenSource.StepsStopped | backend/utils/web_processor_open_source.py:176-177 | once a table raises, later elements change nothing |
| WebOpenSource.WrittenRefused | backend/utils/web_processor_open_source.py:142-144 | puts the store refused leave it as it was |
| WebOpenSource.ListedUnique | backend/utils/web_processor_open_source.py:115 | entries numbered by their position have pairwise distinct keys |
| WebOpenSource.StoredKeepsListed | backend/utils/web_processor_open_source.py:108-118 | handling an image keeps every `image_urls` entry numbered by position, mapped to its object's URL and stored |
| WebOpenSource.StepKeepsListed | backend/utils/web_processor_open_source.py:84-153 | one loop iteration keeps that invariant |
| WebOpenSource.StepsKeepListed | backend/utils/web_processor_open_source.py:84-153 | the whole element loop keeps it |
| WebOpenSource.StoreImageInBucket | backend/utils/web_processor_open_source.py:111-118 | the upload ends both image branches and attempts exactly the puts it reports |
| WebOpenSource.HandleDataImage | backend/utils/web_processor_open_source.py:94-118 | the data-URL branch against the bucket |
| WebOpenSource.HandleLinkedImage | backend/utils/web_processor_open_source.py:120-140 | the linked-image branch against the bucket |
| WebOpenSource.HandleImage | backend/utils/web_processor_open_source.py:90-144 | the `img` branch against the bucket |
| WebOpenSource.ScrapeElement | backend/utils/web_processor_open_source.py:85-153 | one iteration of the element loop: the scan advances as specified and the bucket holds the puts |
| WebOpenSource.ScrapeTable | backend/utils/web_processor_open_source.py:85-88 | a table adds its Markdown set off by blank lines, adds nothing when empty, and can raise |
| WebOpenSource.ScrapeImage | backend/utils/web_processor_open_source.py:90-144 | an image element never raises |
| WebOpenSource.ScrapeText | backend/utils/web_processor_open_source.py:146-153 | a heading or paragraph adds its stripped text, a heading behind its level in `#` marks |
| WebOpenSource.ScrapeElements | backend/utils/web_processor_open_source.py:84-153 | the element loop |
| WebOpenSource.ScrapeWebsite | backend/utils/web_processor_open_source.py:55-177 | `scrape_website`: its result or raised message, with the bucket after exactly the puts it attempts |
| WebOpenSource.ScrapedContentIsStored | backend/utils/web_processor_open_source.py:155-174 | on success the page had a title string; `image_urls` lists `image_1`, `image_2`, … in order, each mapped to the URL of an object now in the bucket, without duplicate keys; the Markdown URL names the object holding the joined page Markdown |
| PdfOpenSource.CellTexts | backend/utils/pdf_processor_open_source.py:30-33 | `str()` of each cell, so `None` prints as `None` |
| PdfOpenSource.GridLines | backend/utils/pdf_processor_open_source.py:32-33 | one line per grid row |
| PdfOpenSource.GridFragments | backend/utils/pdf_processor_open_source.py:28-34 | an empty grid adds nothing; otherwise the header, a separator with one `---` per header cell, the rows, and a break |
| PdfOpenSource.TablesNext | backend/utils/pdf_processor_open_source.py:26-37 | each table adds its fragments and its box, in order |
| PdfOpenSource.TableAreas | backend/utils/pdf_processor_open_source.py:37 | every detected table's box is excluded, whether or not it rendered |
| PdfOpenSource.KeptBlocks | backend/utils/pdf_processor_open_source.py:60-72 | no more text fragments than blocks |
| PdfOpenSource.KeptBlocksConcat | backend/utils/pdf_processor_open_source.py:61-72 | the blocks are filtered one at a time, in order: splitting them anywhere splits the fragments at the same place |
| PdfOpenSource.KeptBlocksOne | backend/utils/pdf_processor_open_source.py:63-72 | a block yields `block[4] + "\n\n"` exactly when its rectangle meets no table box, and nothing otherwise |
| PdfOpenSource.BlockInTable | backend/utils/pdf_processor_open_source.py:63-69 | the loop with `break` finds an intersecting table box exactly when one exists |
| PdfOpenSource.KeepBlocks | backend/utils/pdf_processor_open_source.py:60-72 | the block loop keeps the blocks that meet no table box |
| PdfOpenSource.NoTablesKeepsAllBlocks | backend/utils/pdf_processor_open_source.py:60-72 | without tables every block is kept, in order, followed by a blank line |
| PdfOpenSource.KeptBlocksEmptyIff | backend/utils/pdf_processor_open_source.py:60-72 | no page text survives exactly when every block meets a table box |
| PdfOpenSource.EmptyGridStillExcludes | backend/utils/pdf_processor_open_source.py:28-37 | a table whose grid is empty renders nothing but still hides the text it covers |
| PdfOpenSource.ImageMapKeyInjective | backend/utils/pdf_processor_open_source.py:52 | distinct (page, position) pairs get distinct `image_urls` keys |
| PdfOpenSource.ImageStep | backend/utils/pdf_processor_open_source.py:47-57 | an image never changes the table count |
| PdfOpenSource.AddImages | backend/utils/pdf_processor_open_source.py:41-57 | the image loop never changes the table count |
| PdfOpenSource.AfterPage | backend/utils/pdf_processor_open_source.py:19-74 | a page adds exactly its detected tables to `tables_found` |
| PdfOpenSource.KeysBeforeLater | backend/utils/pdf_processor_open_source.py:52 | keys of earlier images stay earlier as the loop moves on |
| PdfOpenSource.ImageStepAppends | backend/utils/pdf_processor_open_source.py:50-57 | an accepted image adds a fresh entry; a refused one adds none |
| PdfOpenSource.AddImagesAppends | backend/utils/pdf_processor_open_source.py:41-57 | a page's image loop adds one entry per accepted image, with no key repeated |
| PdfOpenSource.AfterPageCounts | backend/utils/pdf_processor_open_source.py:19-74 | the same, for one whole page |
| PdfOpenSource.ProcessPagesCounts | backend/utils/pdf_processor_open_source.py:98-99 | `tables_found` counts every detected table and `image_count` every accepted image; no entry of `image_urls` is overwritten |
| PdfOpenSource.PdfContentIsStored | backend/utils/pdf_processor_open_source.py:80-101 | on success, the response carries the Markdown key's URL and the page loop's map and count, and the bucket holds the joined Markdown at that key |
| PdfOpenSource.RenderGrid | backend/utils/pdf_processor_open_source.py:28-34 | the rendering of one grid |
| PdfOpenSource.RenderTables | backend/utils/pdf_processor_open_source.py:24-37 | the table loop: fragments, exclusion boxes and the count |
| PdfOpenSource.UploadImages | backend/utils/pdf_processor_open_source.py:40-57 | the image loop against the bucket |
| PdfOpenSource.ProcessPage | backend/utils/pdf_processor_open_source.py:19-74 | one page against the bucket |
| PdfOpenSource.ProcessAllPages | backend/utils/pdf_processor_open_source.py:19-74 | the page loop against the bucket |
| PdfOpenSource.ProcessPdfWithOpenSource | backend/utils/pdf_processor_open_source.py:8-107 | `process_pdf_with_open_source`: its result or raised message, with the bucket after exactly the puts it attempts |
| PdfEnterprise.LineBlocks | backend/utils/pdf_processor_enterprise.py:58-59 | the page text grows: what was there stays as a prefix |
| PdfEnterprise.LineBlocksConcat | backend/utils/pdf_processor_enterprise.py:58-59 | the lines are appended one after another, in order: two batches are the whole list |
| PdfEnterprise.LineBlocksOne | backend/utils/pdf_processor_enterprise.py:59 | one line is appended as `line + "\n\n"` |
| PdfEnterprise.PageText | backend/utils/pdf_processor_enterprise.py:46-59 | a page record's text opens with its `## Page n` heading |
| PdfEnterprise.ContentMapOf | backend/utils/pdf_processor_enterprise.py:42-49 | every reported page gets a record |
| PdfEnterprise.PageRecords | backend/utils/pdf_processor_enterprise.py:42-49 | the page loop gives every listed page a record |
| PdfEnterprise.ContentMapKeys | backend/utils/pdf_processor_enterprise.py:42-49 | the records are those of the listed page numbers and no others |
| PdfEnterprise.ContentMapRecords | backend/utils/pdf_processor_enterprise.py:45-49 | a repeated page number starts its record over: the last occurrence wins, with no tables or images |
| PdfEnterprise.PageTextOf | backend/utils/pdf_processor_enterprise.py:46-59 | the text loop of one page |
| PdfEnterprise.BuildContentMap | backend/utils/pdf_processor_enterprise.py:42-60 | the page loop |
| PdfEnterprise.RowCells | backend/utils/pdf_processor_enterprise.py:69 | a row has no more cells than the table |
| PdfEnterprise.RowCellsConcat | backend/utils/pdf_processor_enterprise.py:69 | a row's contents follow the cell order: splitting the cells splits the row at the same place |
| PdfEnterprise.RowCellsOne | backend/utils/pdf_processor_enterprise.py:69 | a cell gives its content to its own row and to no other |
| PdfEnterprise.RowCellsMembers | backend/utils/pdf_processor_enterprise.py:69 | row `r` holds exactly the contents of the cells whose row index is `r` |
| PdfEnterprise.RowMarkdown | backend/utils/pdf_processor_enterprise.py:70-72 | what was there stays as a prefix |
| PdfEnterprise.RowsMarkdown | backend/utils/pdf_processor_enterprise.py:68-72 | what was there stays as a prefix |
| PdfEnterprise.RowsMarkdownNext | backend/utils/pdf_processor_enterprise.py:68-72 | each row appends the line of its cells, and row 0 also the separator as long as row 0 |
| PdfEnterprise.LaterRowLines | backend/utils/pdf_processor_enterprise.py:68-71 | one line per row from 1 on, in row order |
| PdfEnterprise.RowsMarkdownShape | backend/utils/pdf_processor_enterprise.py:68-72 | a table's rows are row 0's line, the separator of `len(row 0)` dashes, then the lines of rows 1 to n - 1 in order; no rows add nothing |
| PdfEnterprise.TableMarkdown | backend/utils/pdf_processor_enterprise.py:67-72 | a table's Markdown opens with its `**Table:**` heading |
| PdfEnterprise.TableToMarkdown | backend/utils/pdf_processor_enterprise.py:67-72 | the row loop of one table |
| PdfEnterprise.AttachTablesSucceeds | backend/utils/pdf_processor_enterprise.py:74-76 | attaching succeeds exactly when every table with a region names a page that has a record |
| PdfEnterprise.AttachTablesPlacement | backend/utils/pdf_processor_enterprise.py:74-76 | after attaching, no page is added and each page holds the tables whose first region is on it, in order; a table without regions is dropped |
| PdfEnterprise.AttachAllTables | backend/utils/pdf_processor_enterprise.py:64-77 | the table loop |
| PdfEnterprise.AttachTablesStopped | backend/utils/pdf_processor_enterprise.py:76 | once a table names a missing page, the loop has failed for good |
| PdfEnterprise.ImageStep | backend/utils/pdf_processor_enterprise.py:93-110 | an image never adds or removes a page record |
| PdfEnterprise.PageImages | backend/utils/pdf_processor_enterprise.py:87-110 | a page's images never add or remove a page record |
| PdfEnterprise.AllImages | backend/utils/pdf_processor_enterprise.py:83-110 | the image loop never adds or removes a page record |
| PdfEnterprise.PageReferences | backend/utils/pdf_processor_enterprise.py:106-107 | a page has no more references than images |
| PdfEnterprise.ImageStepAt | backend/utils/pdf_processor_enterprise.py:93-110 | an accepted upload adds its `![Image p-n](url)` reference to page p's images; a refused one, and every other page, change nothing |
| PdfEnterprise.PageImagesAt | backend/utils/pdf_processor_enterprise.py:87-110 | page p's images grow by the references of its accepted uploads, in order; every other page is unchanged |
| PdfEnterprise.AllImagesAt | backend/utils/pdf_processor_enterprise.py:83-110 | after the image loop each page's images grow by the references of that page's accepted uploads, in order; pages past the PDF's are unchanged |
| PdfEnterprise.PageImagesLastUrl | backend/utils/pdf_processor_enterprise.py:98 | after a page, `image_url` is the URL of its last accepted upload, or unchanged when none was accepted |
| PdfEnterprise.AllImagesLastUrl | backend/utils/pdf_processor_enterprise.py:83-110 | the same over the whole document |
| PdfEnterprise.UploadImage | backend/utils/pdf_processor_enterprise.py:97-110 | one image against the bucket |
| PdfEnterprise.UploadPageImages | backend/utils/pdf_processor_enterprise.py:87-110 | the images of one page against the bucket |
| PdfEnterprise.UploadAllImages | backend/utils/pdf_processor_enterprise.py:83-110 | the image loop against the bucket |
| PdfEnterprise.LeastOf | backend/utils/pdf_processor_enterprise.py:113 | a non-empty set of page numbers has a least element |
| PdfEnterprise.SetMin | backend/utils/pdf_processor_enterprise.py:113 | that least element |
| PdfEnterprise.SortedKeys | backend/utils/pdf_processor_enterprise.py:113 | `sorted()` of the page numbers: the same numbers, strictly ascending |
| PdfEnterprise.PrependMin | backend/utils/pdf_processor_enterprise.py:113 | the least page number followed by the others in ascending order is all of them in ascending order |
| PdfEnterprise.Combined | backend/utils/pdf_processor_enterprise.py:31 | the output opens with `# PDF Extraction Output` |
| PdfEnterprise.AppendAll | backend/utils/pdf_processor_enterprise.py:115-118 | the inner loops: every image or table Markdown is appended, in order |
| PdfEnterprise.AppendPage | backend/utils/pdf_processor_enterprise.py:114-118 | a page contributes its text, then its images, then its tables |
| PdfEnterprise.AppendPages | backend/utils/pdf_processor_enterprise.py:113-118 | the pages are appended in the given order |
| PdfEnterprise.CombineContent | backend/utils/pdf_processor_enterprise.py:112-118 | the assembly over the pages in ascending page number |
| PdfEnterprise.ImageUrlOutcome | backend/utils/pdf_processor_enterprise.py:97-145 | with no accepted image upload the call fails, because `image_url` is unbound, after the Markdown is stored; otherwise the call returns the whole response, whose `images` is the last accepted upload's URL and whose `markdown` is the stored Markdown's URL |
| PdfEnterprise.AnalyseDocument | backend/utils/pdf_processor_enterprise.py:15-77 | the credentials check, then the page and table loops |
| PdfEnterprise.ProcessPdfWithEnterprise | backend/utils/pdf_processor_enterprise.py:9-150 | `process_pdf_with_enterprise`: its result or raised message, with the bucket after exactly the puts it attempts |
| PdfEnterprise.StoreEnterpriseContent | backend/utils/pdf_processor_enterprise.py:79-145 | the image loop, the assembly and the Markdown upload |
| WebEnterprise.RowTexts | backend/utils/web_processor_enterprise.py:150-155 | each crawled row is joined with ` \| ` |
| WebEnterprise.TableLines | backend/utils/web_processor_enterprise.py:146-156 | no rows add nothing; otherwise an empty line, the header, a separator with one `---` per header cell, the other rows and a break |
| WebEnterprise.DatumEmission | backend/utils/web_processor_enterprise.py:125-156 | each kind of datum emits its own line, and only when its stripped text, source or link target is non-empty; unknown kinds emit nothing |
| WebEnterprise.DataLinesNext | backend/utils/web_processor_enterprise.py:125 | the data lines grow datum by datum |
| WebEnterprise.ItemLines | backend/utils/web_processor_enterprise.py:121-158 | an item opens with its URL line (`No URL` when absent) and closes with `---` |
| WebEnterprise.ConvertTable | backend/utils/web_processor_enterprise.py:146-156 | the table branch |
| WebEnterprise.ConvertDatum | backend/utils/web_processor_enterprise.py:126-156 | one pass of the datum loop |
| WebEnterprise.ConvertData | backend/utils/web_processor_enterprise.py:125-156 | the datum loop |
| WebEnterprise.ConvertItem | backend/utils/web_processor_enterprise.py:120-158 | one item |
| WebEnterprise.JsonToMarkdown | backend/utils/web_processor_enterprise.py:118-159 | `json_to_markdown`: every item's lines joined by newlines |
| WebEnterprise.CloseIndex | backend/utils/web_processor_enterprise.py:249 | the lazy group ends at the first `)`, with no newline before it; with none, every `)` has a newline before it |
| WebEnterprise.ReplaceImageUrls | backend/utils/web_processor_enterprise.py:239-241 | empty or mismatched lists leave the Markdown unchanged |
| WebEnterprise.SubstitutePlainPrefix | backend/utils/web_processor_enterprise.py:249 | text without `!` passes through the substitution unchanged |
| WebEnterprise.CloseIndexOfReference | backend/utils/web_processor_enterprise.py:249 | a URL with no `)` and no newline is matched up to its closing `)` |
| WebEnterprise.SubstituteReference | backend/utils/web_processor_enterprise.py:245-249 | such a reference becomes its mapped URL, or keeps its own when unmapped, and the rest is processed after it |
| WebEnterprise.SubstituteEmptyMap | backend/utils/web_processor_enterprise.py:245-249 | with an empty map the text is unchanged |
| WebEnterprise.ZipMapLastWins | backend/utils/web_processor_enterprise.py:243 | a URL listed more than once maps to its last pairing |
| WebEnterprise.ZipMapUnlisted | backend/utils/web_processor_enterprise.py:243 | only listed URLs are mapped |
| WebEnterprise.ItemImageSources | backend/utils/web_processor_enterprise.py:200 | an item has no more image sources than data |
| WebEnterprise.EnterpriseImageExt | backend/utils/web_processor_enterprise.py:217 | the extension never contains a dot |
| WebEnterprise.LastPartLowerNoDot | backend/utils/web_processor_enterprise.py:217 | the lower-cased last part after `.` contains no dot |
| WebEnterprise.DownloadFrom | backend/utils/web_processor_enterprise.py:204-226 | the download loop never raises `KeyError` itself |
| WebEnterprise.DownloadFromConcat | backend/utils/web_processor_enterprise.py:199-226 | downloading `a + b` is downloading `a` and then `b` |
| WebEnterprise.DownloadItemsFlat | backend/utils/web_processor_enterprise.py:196-228 | when every image entry has a `src`, the item-by-item loop is one pass over all sources |
| WebEnterprise.DownloadItemsKeyError | backend/utils/web_processor_enterprise.py:200 | the loop raises `KeyError` exactly when some image entry has no `src` |
| WebEnterprise.DownloadStepUploaded | backend/utils/web_processor_enterprise.py:205-226 | one step lists the image's bucket URL exactly when the image is copied |
| WebEnterprise.DownloadFromKeepsCopied | backend/utils/web_processor_enterprise.py:204-226 | `images_path` gains the bucket URL of every copied image, in source order |
| WebEnterprise.CopiedUrlsAll | backend/utils/web_processor_enterprise.py:204-228 | as many uploaded URLs as sources exactly when every image is copied |
| WebEnterprise.DownloadImage | backend/utils/web_processor_enterprise.py:205-226 | one image against the bucket |
| WebEnterprise.DownloadImages | backend/utils/web_processor_enterprise.py:204-226 | one item's images against the bucket |
| WebEnterprise.DownloadImagesToS3 | backend/utils/web_processor_enterprise.py:196-228 | `download_images_to_s3`: `images_path`, or the `KeyError` |
| WebEnterprise.DownloadItemsStopped | backend/utils/web_processor_enterprise.py:200 | after a `KeyError`, later items change nothing |
| WebEnterprise.PollResultMeaning | backend/utils/web_processor_enterprise.py:175-186 | polling stops at the first `SUCCEEDED`, raises at the first `FAILED` or failed request, and polls on through anything else, in both directions |
| WebEnterprise.WaitForActorCompletion | backend/utils/web_processor_enterprise.py:175-186 | the polling loop |
| WebEnterprise.OneFailureSkipsRewrite | backend/utils/web_processor_enterprise.py:79-84 | a single image that is not copied leaves the stored Markdown with every original URL |
| WebEnterprise.ConvertAndStoreItems | backend/utils/web_processor_enterprise.py:73-112 | conversion, image copy, rewrite and upload once the items are in |
| WebEnterprise.ScrapeWebsiteWithPdf | backend/utils/web_processor_enterprise.py:56-115 | `scrape_website_with_pdf`: its result or raised message, with the bucket after exactly the puts it attempts |
| WebDocling.ResolvedSrc | backend/utils/web_processor_docling.py:38-39 | an absolute source is kept; any other is resolved by `urljoin` |
| WebDocling.Rewrite | backend/utils/web_processor_docling.py:34-46 | an `<img>` with a non-empty `src` becomes a paragraph holding `![alt](`; anything else is untouched |
| WebDocling.RewriteAll | backend/utils/web_processor_docling.py:34-46 | the page after the loop: no `<img>` with a source is left, each replaced where it stood, and every other element is unchanged |
| WebDocling.RewriteAllIdempotent | backend/utils/web_processor_docling.py:34-46 | a second pass changes nothing |
| WebDocling.ReplacementText | backend/utils/web_processor_docling.py:36-44 | an absolute source appears verbatim and a relative one as resolved; a missing `alt` reads `Image` |
| WebDocling.ReplaceImages | backend/utils/web_processor_docling.py:34-46 | the loop rewrites the parsed page in place |
| WebDocling.FetchHtml | backend/utils/web_processor_docling.py:16-56 | an exception of `requests.get` is raised as it is; otherwise raises exactly on a status other than 200, with the status in the text; yields nothing exactly when the page could not be parsed or written; else the page with every `<img>` rewritten |
| WebDocling.FetchHtmlInto | backend/utils/web_processor_docling.py:16-56 | `fetch_html` on the parsed page |
| WebDocling.DoclingMarkdownKey | backend/utils/web_processor_docling.py:84-85 | the key ends with `/{domain}.md` |
| WebDocling.DoclingContentIsStored | backend/utils/web_processor_docling.py:58-110 | a failed fetch writes nothing; on success exactly one object is written, the converter's Markdown of the rewritten page, and the response's only URL names it |
| WebDocling.ProcessHtmlWithDocling | backend/utils/web_processor_docling.py:58-110 | `process_html_with_docling`: its result or raised message, with the bucket after exactly the puts it attempts |
| PdfDocling.DoclingPdfMarkdownKey | backend/utils/pdf_processor_docling.py:74-75 | the key ends with `/{stem}_{timestamp}.md` |
| PdfDocling.DoclingPdfContentIsStored | backend/utils/pdf_processor_docling.py:63-96 | a failed conversion writes nothing; otherwise the Markdown is the one put, the call succeeds exactly when its key is accepted, and then the response's only URL names the stored Markdown |
| PdfDocling.ProcessPdfWithDocling | backend/utils/pdf_processor_docling.py:27-96 | `process_pdf_with_docling`: its result or raised message, with the bucket after exactly the puts it attempts |
| Api.Route | backend/main.py:68-75 | each processor is chosen exactly when the lower-cased category is its name |
| Api.RouteAccepts | backend/main.py:74-75 | only the three names are accepted |
| Api.RouteIgnoresCase | backend/main.py:68-73 | lower-casing twice is lower-casing once, so the case of the category does not matter |
| Api.SuccessBody | backend/main.py:77-81 | the success envelope: `status` is `success`, then the message, then the processor's result under `data` |
| Api.Answered | backend/main.py:77-85 | a result is sent as the success envelope around it; any exception becomes a 500 carrying its text |
| Api.RawKey | backend/main.py:52 | the raw PDF's key ends with the uploaded file name |
| Api.RawUploadFirst | backend/main.py:51-57 | the raw PDF is the first write of every request; a refused raw upload ends the request with the upload's error and no other write |
| Api.ReadBackRefused | backend/main.py:63-65 | a refused read-back ends the request with the read's error, after the raw upload only |
| Api.ProcessedBytesAreUploaded | backend/main.py:55-73 | the bytes processed are the bytes uploaded: after the raw upload and read-back, a known category runs its processor on the uploaded content, and the processor's writes follow the raw one |
| Api.OpenSourcePdfDispatch | backend/main.py:44-81 | once the raw PDF is stored and read back, category `open source` in any case runs the open-source PDF processor on the uploaded bytes under the id `{stem}_{timestamp}`; the answer wraps its result under `data` and its writes follow the raw upload |
| Api.DoclingPdfDispatch | backend/main.py:44-81 | the same for category `docling` and the Docling PDF processor |
| Api.EnterprisePdfDispatch | backend/main.py:44-81 | the same for category `enterprise` and the enterprise PDF processor |
| Api.InvalidCategoryAfterUpload | backend/main.py:74-85 | an unknown category is rejected after the raw PDF is stored, as a 500 carrying the 400's text |
| Api.RunPdf | backend/main.py:68-73 | the PDF dispatch against the bucket |
| Api.ProcessPdf | backend/main.py:37-88 | `process_pdf`: its answer, with the bucket after exactly the puts it attempts |
| Api.ProcessWebsiteRequest | backend/main.py:91-113 | an unknown category writes nothing and answers 500 with the 400's text; otherwise the answer wraps the processor's result |
| Api.ProcessWebsiteDispatch | backend/main.py:94-107 | `open source`, `docling` and `enterprise` (in any case) each run that web processor on the URL, the answer wrapping its result and the writes being exactly that processor's |
| Api.RunWeb | backend/main.py:94-99 | the web dispatch against the bucket |
| Api.ProcessWebsite | backend/main.py:91-113 | `process_website`: its answer, with the bucket after exactly the puts it attempts |
| Client.ValidatePdfFile | streamlit_app.py:19-57 | valid exactly when a file is present, at most 10 MiB, named `.pdf` in any case, opens, has pages and needs no password; reported with no message exactly when valid |
| Client.FirstFailureWins | streamlit_app.py:22-50 | each failure is reported by the first check that fails |
| Client.MaximumSizeAccepted | streamlit_app.py:14 | exactly 10 MiB passes the size check; one byte more fails it |
| Client.UpperCaseExtensionAccepted | streamlit_app.py:30 | a name ending in `.PDF` passes the extension check |
| Client.IsValidUrl | streamlit_app.py:366-371 | valid exactly for an http or https scheme with a non-empty host; a parse failure is invalid |
| Client.LinkHtml | streamlit_app.py:220-224 | each anchor opens with its link target |
| Client.OpenLinksNext | streamlit_app.py:215-224 | the container grows by one anchor per entry, numbered from 1 |
| Client.ImageUrls.constructor | streamlit_app.py:298 | the image map of a result |
| Client.ImageUrls.ImageLinks | streamlit_app.py:175-227 | succeeds exactly when every entry can be linked; then the styles come first, then one anchor per entry in map order, each set entry giving up the element it links to; on a failure, the entries before the first unlinkable one are left linked (sets popped) and the rest as they were |
| Client.LinkEntries | streamlit_app.py:214-225 | the link loop over the entries: all linked on success, the linked prefix up to the first unlinkable entry on failure |
| Client.LinkStep | streamlit_app.py:215-224 | one iteration of the link loop keeps the loop invariant |
| Client.LinkedPrefixNext | streamlit_app.py:215-224 | linking the next entry extends the linked prefix by one |
| Client.LinkedAllLinkable | streamlit_app.py:217-219 | every entry that was linked was one the loop can link |
| Client.LinkTarget | streamlit_app.py:217-219 | a string entry links to itself, a list to its first element, and a set to an element it then no longer holds |
| Client.DownloadFilename | streamlit_app.py:276 | the name holds no `/`, except the fixed default; a non-empty URL ends with it, and it is the whole text after the URL's last `/` (or the whole URL) |
| Client.DownloadIsNamedAsStored | streamlit_app.py:276 | the download of a stored Markdown object is named as its file |

## Left out

- Engines: PyMuPDF, the layout service, Docling's converter, BeautifulSoup's parsing, base64 decoding, `urlparse` and `urljoin` are not modelled. Their answers are parameters of the model.
- HTTP: the HTTP requests, including `raise_for_status`, and the crawler's start, polling and dataset requests are not modelled. Their answers (status, content type, body, or the text of the exception they raise) are parameters.
- Clock: `datetime.now()` is a timestamp parameter. The `processing_date` of the enterprise and Docling PDF processors is a second, separate parameter because it is read again later. The Docling PDF processor also reads the clock for its Markdown key, which is a parameter of its own.
- Polling: the polling loop is modelled over a finite sequence of status answers. It runs forever in the source if the run never finishes, and the model reports that case as `StillRunning`. The five-second sleep is left out.
- Page function: the crawler's JavaScript page function is not modelled. Its output items are inputs in the shape it produces.
- Logging: logging and `print` are left out. They do not change results.
- Local files: temporary files, local directories, local writes and deleting the temporary file are left out.
  - The enterprise PDF processor's local image and Markdown writes are assumed to succeed.
  - In Docling's `fetch_html`, a failed parse or write is one input flag.
- Image extraction: a failing `extract_image` call is not modelled. Each image arrives already extracted, with its bytes and extension.
- PdfEnterprise.PageText: the `{page.width} x {page.height}` text is a string input, because Python's float formatting is not modelled.
- PdfOpenSource.Intersects: `Rect.intersects` is modelled as a documented predicate on exact rational coordinates. PyMuPDF's float rectangle semantics are not modelled.
- Docling as a whole: for both Docling processors the converter's result is an input. For the web processor a falsy result is folded into the converter's error outcome. For the PDF processor the converter's options and the document stream are left out, and the Markdown export (or the text of its exception) is the input.
- Images in the enterprise PDF: `image_urls` in the enterprise PDF processor is built but never read by its output. The model keeps it but proves nothing about it.
- Request validation: pydantic's URL validation and normalisation of the request body are left out. The URL string passed on is taken as given.
- Error texts:
  - The exact text of Starlette's `str()` of a caught `HTTPException` is approximated by `Api.BadRequest`.
  - The texts of Python's `AttributeError` and `int()` `ValueError` messages are approximated by fixed strings of the same form.
  - Messages of the network library's exceptions are parameters.
- Set pop: `set.pop()` in the client's link loop is a nondeterministic choice of an element of the set.
- Nested dictionaries in the client: an entry of the image map whose value is a nested dictionary is modelled as an error of the link loop. In the source, that value would be linked by its text.
- Styles: the client's style sheet is a parameter. It is passed through unchanged.
- `test_s3_connection` is left out. It only pings the bucket.
- `upload_processed_content_to_s3`: its loop over the raw directory and its URL dictionary are left out. Only `Storage.WalkTarget` models where the directory walk sends each file.
- Integers: integers are unbounded, matching Python's.
- Strings.ParseInt and WebOpenSource.ExpandCells: only the ASCII digits `0`-`9` are read as digits. Python's `int()` also accepts every other Unicode decimal digit (`int("٣") == 3`), and the model treats such a `colspan` as an `int()` failure instead.
