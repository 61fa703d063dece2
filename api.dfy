/** The HTTP handlers (backend/main.py): `process_pdf` stores the uploaded
    PDF, reads it back and hands those bytes to the processor the category
    names; `process_website` dispatches a URL the same way. Every
    exception becomes a 500 whose detail is the exception's text. The
    engines each processor drives are inputs. */
module Api {
  import opened Values
  import opened Strings
  import opened Storage
  import opened DocumentIds
  import PdfOpenSource
  import PdfEnterprise
  import PdfDocling
  import WebOpenSource
  import WebEnterprise
  import WebDocling

  // ===========================================================================
  // Dispatch

  datatype Processor = OpenSource | Docling | Enterprise

  /** The processor a category selects, compared lower-cased with the three
      names exactly; `None` for any other category. */
  function Route(category: string): (p: Option<Processor>)
    ensures p == Some(OpenSource) <==> Lower(category) == "open source"
    ensures p == Some(Docling) <==> Lower(category) == "docling"
    ensures p == Some(Enterprise) <==> Lower(category) == "enterprise"
  {
    var c := Lower(category);
    if c == "open source" then Some(OpenSource)
    else if c == "docling" then Some(Docling)
    else if c == "enterprise" then Some(Enterprise)
    else None
  }

  /** Exactly the three names are accepted. */
  lemma RouteAccepts(category: string)
    ensures Route(category).None? <==> Lower(category) !in ["open source", "docling", "enterprise"]
  {
  }

  /** Case does not matter to the dispatch: lower-casing twice changes
      nothing more. */
  lemma RouteIgnoresCase(category: string)
    ensures Lower(Lower(category)) == Lower(category)
    ensures Route(category) == Route(Lower(category))
  {
  }

  /** What a handler answers: the success envelope around the processor's
      result, or an HTTP error with its detail. */
  datatype Answer = Success(body: Value) | HttpError(status: int, detail: string)

  /** `{"status": "success", "message": ..., "data": result}`. */
  function SuccessBody(message: string, data: Value): (v: Value)
    ensures v.Obj? && |v.fields| == 3 && v.fields[0] == ("status", Str("success"))
    ensures v.fields[1] == ("message", Str(message)) && v.fields[2] == ("data", data)
  {
    Obj([("status", Str("success")), ("message", Str(message)), ("data", data)])
  }

  /** The generic handler: a result is sent in the success envelope, and any
      exception is answered with 500 and its text. */
  function Answered(r: Result<Value>, message: string): (a: Answer)
    ensures r.Ok? ==> a.Success? && a.body == SuccessBody(message, r.value)
    ensures r.Err? ==> a == HttpError(500, r.msg)
  {
    if r.Ok? then Success(SuccessBody(message, r.value)) else HttpError(500, r.msg)
  }

  /** `str()` of the `HTTPException(400, ...)` that the generic handler
      catches, so the caller sees it inside a 500. */
  function BadRequest(detail: string): string
  {
    "400: " + detail
  }

  // ===========================================================================
  // process_pdf

  /** The PDF engines the processors drive, as functions of the bytes they
      are given: `docling` is Docling's Markdown export, with the clock
      readings `doclingStamp` (in its key) and `doclingDate` (in its
      metadata); `analysisTime` is the clock reading the enterprise
      processor stamps on its result. */
  datatype PdfEngines = PdfEngines(
    openSource: Bytes -> Result<seq<PdfOpenSource.PdfPage>>,
    docling: Bytes -> Result<string>,
    doclingStamp: string,
    doclingDate: string,
    credentials: bool,
    analyse: Bytes -> Result<PdfEnterprise.Analysis>,
    images: Bytes -> Result<seq<seq<PdfOpenSource.PdfImage>>>,
    analysisTime: string)

  /** `pdf_sources/raw/{document_id}/{filename}`. */
  function RawKey(filename: string, timestamp: string): (key: string)
    ensures EndsWith(key, "/" + filename)
  {
    SourcesKey("pdf", "raw", PdfDocumentId(filename, timestamp), filename)
  }

  /** The object `upload_to_s3` writes for the raw PDF. */
  function RawObject(content: Bytes): StoredObject
  {
    StoredObject(content, Some("application/pdf"), true, false)
  }

  /** The selected processor run on `pdf`, with the puts it attempts. */
  function RunPdfProcessor(ep: Endpoint, denied: map<string, string>, p: Processor, e: PdfEngines, pdf: Bytes,
                           documentId: string, filename: string): (Result<Value>, seq<Put>)
  {
    match p
    case OpenSource => PdfOpenSource.ProcessPdf(ep, denied, e.openSource(pdf), documentId, filename)
    case Docling => PdfDocling.ProcessDoclingPdf(ep, denied, e.docling(pdf), documentId, filename, e.doclingStamp, e.doclingDate)
    case Enterprise =>
      PdfEnterprise.ProcessEnterprise(ep, denied, e.credentials, e.analyse(pdf), e.images(pdf), documentId, filename, e.analysisTime)
  }

  /** The message of a processed PDF. */
  function PdfMessage(category: string): string
  {
    "PDF processed using " + category + " method"
  }

  /** What `process_pdf` answers and every put it attempts, starting from
      the bucket `objects0`: the raw upload, then the read-back of that key,
      then the category check and the selected processor on the bytes read
      back. */
  function ProcessPdfRequest(ep: Endpoint, denied: map<string, string>, unreadable: map<string, string>,
                             objects0: map<string, StoredObject>, filename: string, content: Bytes,
                             category: string, timestamp: string, e: PdfEngines)
    : (Answer, seq<Put>)
  {
    var key := RawKey(filename, timestamp);
    var raw := [Put(key, RawObject(content))];
    if key in denied then (HttpError(500, "Failed to upload to S3: " + denied[key]), raw)
    else
      var read := ReadObject(unreadable, Written(objects0, denied, raw), key);
      if read.Err? then (HttpError(500, read.msg), raw)
      else
        match Route(category)
        case None => (HttpError(500, BadRequest("Invalid category: " + category)), raw)
        case Some(p) =>
          var out := RunPdfProcessor(ep, denied, p, e, read.value, PdfDocumentId(filename, timestamp), filename);
          (Answered(out.0, PdfMessage(category)), raw + out.1)
  }

  /** Whatever the engines do, the raw PDF is the first write of every
      request, and a refused raw upload ends the request with the
      upload's error. */
  lemma RawUploadFirst(ep: Endpoint, denied: map<string, string>, unreadable: map<string, string>,
                       objects0: map<string, StoredObject>, filename: string, content: Bytes,
                       category: string, timestamp: string, e: PdfEngines)
    ensures var key := RawKey(filename, timestamp);
            var r := ProcessPdfRequest(ep, denied, unreadable, objects0, filename, content, category, timestamp, e);
            && |r.1| >= 1 && r.1[0] == Put(key, RawObject(content))
            && (key in denied ==> r == (HttpError(500, "Failed to upload to S3: " + denied[key]), [r.1[0]]))
  {
    var key := RawKey(filename, timestamp);
    var raw := Put(key, RawObject(content));
    var r := ProcessPdfRequest(ep, denied, unreadable, objects0, filename, content, category, timestamp, e);
    if key !in denied {
      if key in unreadable {
        ReadBackRefused(ep, denied, unreadable, objects0, filename, content, category, timestamp, e);
        assert r.1 == [raw];
      } else if Route(category).None? {
        RawWritten(objects0, denied, key, content);
        ReadAfterWrite(unreadable, denied, objects0, key, raw.obj);
        assert r.1 == [raw];
      } else {
        ProcessedBytesAreUploaded(ep, denied, unreadable, objects0, filename, content, category, timestamp, e);
        var out := RunPdfProcessor(ep, denied, Route(category).value, e, content, PdfDocumentId(filename, timestamp), filename);
        HeadPut(raw, out.1, r.1);
      }
    }
  }

  /** A write list built as one write followed by others starts with that write. */
  lemma HeadPut(p: Put, rest: seq<Put>, puts: seq<Put>)
    requires puts == [p] + rest
    ensures |puts| >= 1 && puts[0] == p
  {
  }

  /** A stored raw PDF whose read-back the store refuses ends the request
      with the read's error, after the raw upload only. */
  lemma ReadBackRefused(ep: Endpoint, denied: map<string, string>, unreadable: map<string, string>,
                        objects0: map<string, StoredObject>, filename: string, content: Bytes,
                        category: string, timestamp: string, e: PdfEngines)
    requires RawKey(filename, timestamp) !in denied && RawKey(filename, timestamp) in unreadable
    ensures var key := RawKey(filename, timestamp);
            ProcessPdfRequest(ep, denied, unreadable, objects0, filename, content, category, timestamp, e)
              == (HttpError(500, "Failed to get file from S3: " + unreadable[key]), [Put(key, RawObject(content))])
  {
    var key := RawKey(filename, timestamp);
    ReadAfterWrite(unreadable, denied, objects0, key, RawObject(content));
    RawWritten(objects0, denied, key, content);
  }

  /** The bytes processed are the bytes uploaded: once the raw PDF is
      stored and read back, a known category runs its processor on
      `content` itself, and that processor's puts follow the raw upload. */
  lemma ProcessedBytesAreUploaded(ep: Endpoint, denied: map<string, string>, unreadable: map<string, string>,
                                  objects0: map<string, StoredObject>, filename: string, content: Bytes,
                                  category: string, timestamp: string, e: PdfEngines)
    requires RawKey(filename, timestamp) !in denied && RawKey(filename, timestamp) !in unreadable
    requires Route(category).Some?
    ensures var out := RunPdfProcessor(ep, denied, Route(category).value, e, content,
                                       PdfDocumentId(filename, timestamp), filename);
            ProcessPdfRequest(ep, denied, unreadable, objects0, filename, content, category, timestamp, e)
              == (Answered(out.0, PdfMessage(category)), [Put(RawKey(filename, timestamp), RawObject(content))] + out.1)
  {
    var key := RawKey(filename, timestamp);
    ReadAfterWrite(unreadable, denied, objects0, key, RawObject(content));
    RawWritten(objects0, denied, key, content);
  }

  /** The bucket after the raw put alone. */
  lemma RawWritten(objects0: map<string, StoredObject>, denied: map<string, string>, key: string, content: Bytes)
    ensures Written(objects0, denied, [Put(key, RawObject(content))]) == Write(objects0, denied, key, RawObject(content))
  {
    WrittenAppend(objects0, denied, [], Put(key, RawObject(content)));
    assert [] + [Put(key, RawObject(content))] == [Put(key, RawObject(content))];
  }

  /** Category `open source` (in any case) runs the open-source PDF
      processor on the uploaded bytes, under the document id
      `{stem}_{timestamp}`: the answer wraps its result and its puts follow
      the raw upload. */
  lemma OpenSourcePdfDispatch(ep: Endpoint, denied: map<string, string>, unreadable: map<string, string>,
                              objects0: map<string, StoredObject>, filename: string, content: Bytes,
                              category: string, timestamp: string, e: PdfEngines)
    requires RawKey(filename, timestamp) !in denied && RawKey(filename, timestamp) !in unreadable
    requires Lower(category) == "open source"
    ensures var out := PdfOpenSource.ProcessPdf(ep, denied, e.openSource(content), PdfDocumentId(filename, timestamp), filename);
            ProcessPdfRequest(ep, denied, unreadable, objects0, filename, content, category, timestamp, e)
              == (Answered(out.0, PdfMessage(category)), [Put(RawKey(filename, timestamp), RawObject(content))] + out.1)
  {
    var id := PdfDocumentId(filename, timestamp);
    assert Route(category) == Some(OpenSource);
    ProcessedBytesAreUploaded(ep, denied, unreadable, objects0, filename, content, category, timestamp, e);
    assert RunPdfProcessor(ep, denied, OpenSource, e, content, id, filename) == PdfOpenSource.ProcessPdf(ep, denied, e.openSource(content), id, filename);
  }

  /** Category `docling` (in any case) runs the Docling PDF processor on the
      uploaded bytes, the same way. */
  lemma DoclingPdfDispatch(ep: Endpoint, denied: map<string, string>, unreadable: map<string, string>,
                           objects0: map<string, StoredObject>, filename: string, content: Bytes,
                           category: string, timestamp: string, e: PdfEngines)
    requires RawKey(filename, timestamp) !in denied && RawKey(filename, timestamp) !in unreadable
    requires Lower(category) == "docling"
    ensures var out := PdfDocling.ProcessDoclingPdf(ep, denied, e.docling(content), PdfDocumentId(filename, timestamp),
                                                    filename, e.doclingStamp, e.doclingDate);
            ProcessPdfRequest(ep, denied, unreadable, objects0, filename, content, category, timestamp, e)
              == (Answered(out.0, PdfMessage(category)), [Put(RawKey(filename, timestamp), RawObject(content))] + out.1)
  {
    var id := PdfDocumentId(filename, timestamp);
    assert Route(category) == Some(Docling);
    ProcessedBytesAreUploaded(ep, denied, unreadable, objects0, filename, content, category, timestamp, e);
    assert RunPdfProcessor(ep, denied, Docling, e, content, id, filename) == PdfDocling.ProcessDoclingPdf(ep, denied, e.docling(content), id, filename, e.doclingStamp, e.doclingDate);
  }

  /** Category `enterprise` (in any case) runs the enterprise PDF processor
      on the uploaded bytes, the same way. */
  lemma EnterprisePdfDispatch(ep: Endpoint, denied: map<string, string>, unreadable: map<string, string>,
                              objects0: map<string, StoredObject>, filename: string, content: Bytes,
                              category: string, timestamp: string, e: PdfEngines)
    requires RawKey(filename, timestamp) !in denied && RawKey(filename, timestamp) !in unreadable
    requires Lower(category) == "enterprise"
    ensures var out := PdfEnterprise.ProcessEnterprise(ep, denied, e.credentials, e.analyse(content), e.images(content),
                                                       PdfDocumentId(filename, timestamp), filename, e.analysisTime);
            ProcessPdfRequest(ep, denied, unreadable, objects0, filename, content, category, timestamp, e)
              == (Answered(out.0, PdfMessage(category)), [Put(RawKey(filename, timestamp), RawObject(content))] + out.1)
  {
    var id := PdfDocumentId(filename, timestamp);
    assert Route(category) == Some(Enterprise);
    ProcessedBytesAreUploaded(ep, denied, unreadable, objects0, filename, content, category, timestamp, e);
    assert RunPdfProcessor(ep, denied, Enterprise, e, content, id, filename) == PdfEnterprise.ProcessEnterprise(ep, denied, e.credentials, e.analyse(content), e.images(content), id, filename, e.analysisTime);
  }

  /** An unknown category is rejected only after the raw PDF is stored and
      read back, and the caller sees a 500 carrying the 400's text. */
  lemma InvalidCategoryAfterUpload(ep: Endpoint, denied: map<string, string>, unreadable: map<string, string>,
                                   objects0: map<string, StoredObject>, filename: string, content: Bytes,
                                   category: string, timestamp: string, e: PdfEngines)
    requires Route(category).None?
    requires RawKey(filename, timestamp) !in denied && RawKey(filename, timestamp) !in unreadable
    ensures var r := ProcessPdfRequest(ep, denied, unreadable, objects0, filename, content, category, timestamp, e);
            && r.0 == HttpError(500, BadRequest("Invalid category: " + category))
            && RawKey(filename, timestamp) in Written(objects0, denied, r.1)
            && Written(objects0, denied, r.1)[RawKey(filename, timestamp)] == RawObject(content)
  {
    var key := RawKey(filename, timestamp);
    RawWritten(objects0, denied, key, content);
    ReadAfterWrite(unreadable, denied, objects0, key, RawObject(content));
  }

  /** The dispatch of `process_pdf` to the selected processor. */
  method RunPdf(bucket: Bucket, p: Processor, e: PdfEngines, pdf: Bytes, documentId: string, filename: string)
    returns (result: Result<Value>)
    modifies bucket
    ensures var out := RunPdfProcessor(bucket.endpoint, bucket.denied, p, e, pdf, documentId, filename);
            result == out.0 && bucket.objects == Written(old(bucket.objects), bucket.denied, out.1)
  {
    match p
    case OpenSource =>
      result := PdfOpenSource.ProcessPdfWithOpenSource(bucket, e.openSource(pdf), documentId, filename);
    case Docling =>
      result := PdfDocling.ProcessPdfWithDocling(bucket, e.docling(pdf), documentId, filename, e.doclingStamp, e.doclingDate);
    case Enterprise =>
      result := PdfEnterprise.ProcessPdfWithEnterprise(bucket, e.credentials, e.analyse(pdf), e.images(pdf),
                                                       documentId, filename, e.analysisTime);
  }

  /** `process_pdf`. */
  method ProcessPdf(bucket: Bucket, filename: string, content: Bytes, category: string, timestamp: string, e: PdfEngines)
    returns (a: Answer)
    modifies bucket
    ensures var out := ProcessPdfRequest(bucket.endpoint, bucket.denied, bucket.unreadable, old(bucket.objects),
                                         filename, content, category, timestamp, e);
            a == out.0 && bucket.objects == Written(old(bucket.objects), bucket.denied, out.1)
  {
    var baseName := Stem(filename);
    var documentId := baseName + "_" + timestamp;
    assert documentId == PdfDocumentId(filename, timestamp);
    var pdfKey := RawKey(filename, timestamp);
    var raw := Put(pdfKey, RawObject(content));
    var uploaded := bucket.UploadToS3(content, pdfKey, Some("application/pdf"));
    WrittenAppend(old(bucket.objects), bucket.denied, [], raw);
    assert [] + [raw] == [raw];
    if uploaded.Err? {
      return HttpError(500, uploaded.msg);
    }
    var pdfContent := bucket.GetFromS3(pdfKey);
    if pdfContent.Err? {
      return HttpError(500, pdfContent.msg);
    }
    var route := Route(category);
    if route.None? {
      return HttpError(500, BadRequest("Invalid category: " + category));
    }
    ghost var objects1 := bucket.objects;
    var result := RunPdf(bucket, route.value, e, pdfContent.value, documentId, filename);
    ghost var out := RunPdfProcessor(bucket.endpoint, bucket.denied, route.value, e, pdfContent.value, documentId, filename);
    WrittenConcat(old(bucket.objects), bucket.denied, [raw], out.1);
    a := Answered(result, "PDF processed using " + category + " method");
    assert "PDF processed using " + category + " method" == PdfMessage(category);
  }

  // ===========================================================================
  // process_website

  /** What the three web processors need besides the URL: the open-source
      page and library calls, the Docling fetch (the response's status or
      the exception `requests.get` raises, whether the page parsed),
      `urljoin` and converter, and the crawler's run. */
  datatype WebEngines = WebEngines(
    page: Result<WebOpenSource.Page>,
    web: WebOpenSource.Web,
    response: Result<int>,
    parsed: bool,
    urljoin: (string, string) -> string,
    convert: seq<WebDocling.Node> -> Result<string>,
    crawl: WebEnterprise.Crawl)

  /** The selected web processor on `url`, with its puts; `None` while the
      crawler is still running after the statuses modelled. */
  function RunWebProcessor(ep: Endpoint, denied: map<string, string>, p: Processor, url: string, netloc: string,
                           timestamp: string, e: WebEngines, soup: seq<WebDocling.Node>)
    : (Option<Result<Value>>, seq<Put>)
  {
    match p
    case OpenSource =>
      var r := WebOpenSource.Scrape(ep, denied, url, netloc, timestamp, e.page, e.web);
      (Some(r.0), r.1)
    case Docling =>
      var r := WebDocling.ProcessDocling(ep, denied, url, netloc, timestamp, e.response, e.parsed, soup, e.urljoin, e.convert);
      (Some(r.0), r.1)
    case Enterprise => WebEnterprise.ScrapeWithPdf(ep, denied, url, netloc, timestamp, e.crawl)
  }

  /** The message of a processed website. */
  function WebMessage(category: string): string
  {
    "Website processed using " + category
  }

  /** What `process_website` answers (`None` while the crawler runs on) and
      the puts it attempts: an unknown category writes nothing, any other
      answers with what the selected processor returns or raises. */
  function ProcessWebsiteRequest(ep: Endpoint, denied: map<string, string>, url: string, netloc: string,
                                 category: string, timestamp: string, e: WebEngines, soup: seq<WebDocling.Node>)
    : (r: (Option<Answer>, seq<Put>))
    ensures Route(category).None? ==> r == (Some(HttpError(500, BadRequest("Invalid category"))), [])
    ensures Route(category).Some? ==>
              var out := RunWebProcessor(ep, denied, Route(category).value, url, netloc, timestamp, e, soup);
              r.1 == out.1 && (r.0.Some? <==> out.0.Some?)
              && (out.0.Some? ==> r.0.value == Answered(out.0.value, WebMessage(category)))
  {
    match Route(category)
    case None => (Some(HttpError(500, BadRequest("Invalid category"))), [])
    case Some(p) =>
      var out := RunWebProcessor(ep, denied, p, url, netloc, timestamp, e, soup);
      match out.0
      case None => (None, out.1)
      case Some(res) => (Some(Answered(res, WebMessage(category))), out.1)
  }

  /** Each category runs its own web processor on the URL: the answer wraps
      that processor's result and the puts are exactly that processor's. */
  lemma ProcessWebsiteDispatch(ep: Endpoint, denied: map<string, string>, url: string, netloc: string,
                               category: string, timestamp: string, e: WebEngines, soup: seq<WebDocling.Node>)
    ensures var r := ProcessWebsiteRequest(ep, denied, url, netloc, category, timestamp, e, soup);
            && (Lower(category) == "open source" ==>
                  var out := WebOpenSource.Scrape(ep, denied, url, netloc, timestamp, e.page, e.web);
                  r == (Some(Answered(out.0, WebMessage(category))), out.1))
            && (Lower(category) == "docling" ==>
                  var out := WebDocling.ProcessDocling(ep, denied, url, netloc, timestamp, e.response, e.parsed, soup,
                                                       e.urljoin, e.convert);
                  r == (Some(Answered(out.0, WebMessage(category))), out.1))
            && (Lower(category) == "enterprise" ==>
                  var out := WebEnterprise.ScrapeWithPdf(ep, denied, url, netloc, timestamp, e.crawl);
                  r == (if out.0.Some? then Some(Answered(out.0.value, WebMessage(category))) else None, out.1))
  {
  }

  /** The dispatch of `process_website` to the selected processor. */
  method RunWeb(bucket: Bucket, soup: array<WebDocling.Node>, p: Processor, url: string, netloc: string,
                timestamp: string, e: WebEngines)
    returns (result: Option<Result<Value>>)
    modifies bucket, soup
    ensures var out := RunWebProcessor(bucket.endpoint, bucket.denied, p, url, netloc, timestamp, e, old(soup[..]));
            result == out.0 && bucket.objects == Written(old(bucket.objects), bucket.denied, out.1)
  {
    match p
    case OpenSource =>
      var r := WebOpenSource.ScrapeWebsite(bucket, url, netloc, timestamp, e.page, e.web);
      result := Some(r);
    case Docling =>
      var r := WebDocling.ProcessHtmlWithDocling(bucket, soup, url, netloc, timestamp, e.response, e.parsed, e.urljoin, e.convert);
      result := Some(r);
    case Enterprise =>
      result := WebEnterprise.ScrapeWebsiteWithPdf(bucket, url, netloc, timestamp, e.crawl);
  }

  /** `process_website`. */
  method ProcessWebsite(bucket: Bucket, soup: array<WebDocling.Node>, url: string, netloc: string, category: string,
                        timestamp: string, e: WebEngines)
    returns (a: Option<Answer>)
    modifies bucket, soup
    ensures var out := ProcessWebsiteRequest(bucket.endpoint, bucket.denied, url, netloc, category, timestamp, e,
                                             old(soup[..]));
            a == out.0 && bucket.objects == Written(old(bucket.objects), bucket.denied, out.1)
  {
    var route := Route(category);
    if route.None? {
      return Some(HttpError(500, BadRequest("Invalid category")));
    }
    var result := RunWeb(bucket, soup, route.value, url, netloc, timestamp, e);
    if result.None? {
      return None;
    }
    a := Some(Answered(result.value, "Website processed using " + category));
    assert "Website processed using " + category == WebMessage(category);
  }
}
