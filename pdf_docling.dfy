/** The Docling PDF processor (backend/utils/pdf_processor_docling.py): the
    converter's Markdown export of the uploaded PDF is stored under a key
    holding the file's stem and a clock reading, and the result names only
    that Markdown. The converter and the clock are inputs. */
module PdfDocling {
  import opened Values
  import opened Strings
  import opened Storage

  const DoclingPdfFailure := "Failed to process PDF with Docling: "

  /** `pdf_sources/extracted_markdown/{document_id}/{base_name}_{timestamp}.md`. */
  function DoclingPdfMarkdownKey(documentId: string, baseName: string, timestamp: string): (key: string)
    ensures EndsWith(key, "/" + baseName + "_" + timestamp + ".md")
  {
    var name := baseName + "_" + timestamp + ".md";
    assert "/" + baseName + "_" + timestamp + ".md" == "/" + name;
    SourcesKey("pdf", "extracted_markdown", documentId, name)
  }

  /** The dictionary `process_pdf_with_docling` returns. */
  function DoclingPdfResponse(documentId: string, filename: string, markdownUrl: string, processingDate: string): Value
  {
    Obj([("source_type", Str("pdf")),
         ("document_id", Str(documentId)),
         ("urls", Obj([("markdown", Str(markdownUrl))])),
         ("metadata", Obj([("source_type", Str("pdf")),
                           ("original_filename", Str(filename)),
                           ("processing_date", Str(processingDate)),
                           ("content_type", Str("document")),
                           ("processor", Str("docling"))]))])
  }

  /** What `process_pdf_with_docling` returns or raises, and the put it
      attempts. `converted` is the converter's Markdown export of the PDF
      or the text of its exception; `stamp` is the clock reading in the key
      and `processingDate` the one in the metadata. */
  function ProcessDoclingPdf(ep: Endpoint, denied: map<string, string>, converted: Result<string>,
                             documentId: string, filename: string, stamp: string, processingDate: string)
    : (Result<Value>, seq<Put>)
  {
    match converted
    case Err(e) => (Err(DoclingPdfFailure + e), [])
    case Ok(md) =>
      var key := DoclingPdfMarkdownKey(documentId, Stem(filename), stamp);
      var puts := [Put(key, MarkdownObject(md))];
      if key in denied then (Err(DoclingPdfFailure + MarkdownUploadError(denied[key])), puts)
      else (Ok(DoclingPdfResponse(documentId, filename, ObjectUrl(ep, key), processingDate)), puts)
  }

  /** A failed conversion writes nothing; otherwise the Markdown is the one
      put, the call succeeds exactly when its key is accepted, and then the
      response's only URL names the stored Markdown. A refused upload
      leaves the bucket as it was and raises the upload's own message. */
  lemma DoclingPdfContentIsStored(ep: Endpoint, denied: map<string, string>, converted: Result<string>,
                                  documentId: string, filename: string, stamp: string, processingDate: string,
                                  objects0: map<string, StoredObject>)
    ensures var r := ProcessDoclingPdf(ep, denied, converted, documentId, filename, stamp, processingDate);
            var key := DoclingPdfMarkdownKey(documentId, Stem(filename), stamp);
            && (converted.Err? ==> r == (Err(DoclingPdfFailure + converted.msg), []))
            && (r.0.Ok? <==> converted.Ok? && key !in denied)
            && (converted.Ok? ==> r.1 == [Put(key, MarkdownObject(converted.value))])
            && (converted.Ok? && key in denied ==>
                  r.0 == Err(DoclingPdfFailure + MarkdownUploadError(denied[key])) && Written(objects0, denied, r.1) == objects0)
            && (r.0.Ok? ==>
                  && r.0.value == DoclingPdfResponse(documentId, filename, ObjectUrl(ep, key), processingDate)
                  && key in Written(objects0, denied, r.1)
                  && Written(objects0, denied, r.1)[key] == MarkdownObject(converted.value))
  {
    if converted.Ok? {
      var key := DoclingPdfMarkdownKey(documentId, Stem(filename), stamp);
      WrittenAppend(objects0, denied, [], Put(key, MarkdownObject(converted.value)));
      assert [] + [Put(key, MarkdownObject(converted.value))] == [Put(key, MarkdownObject(converted.value))];
    }
  }

  /** `process_pdf_with_docling`. */
  method ProcessPdfWithDocling(bucket: Bucket, converted: Result<string>, documentId: string, filename: string,
                               stamp: string, processingDate: string)
    returns (r: Result<Value>)
    modifies bucket
    ensures var out := ProcessDoclingPdf(bucket.endpoint, bucket.denied, converted, documentId, filename, stamp, processingDate);
            r == out.0 && bucket.objects == Written(old(bucket.objects), bucket.denied, out.1)
  {
    if converted.Err? {
      return Err(DoclingPdfFailure + converted.msg);
    }
    var markdownContent := converted.value;
    var markdownKey := DoclingPdfMarkdownKey(documentId, Stem(filename), stamp);
    var markdownUrl := bucket.UploadMarkdownToS3(markdownContent, markdownKey);
    WrittenAppend(old(bucket.objects), bucket.denied, [], Put(markdownKey, MarkdownObject(markdownContent)));
    assert [] + [Put(markdownKey, MarkdownObject(markdownContent))] == [Put(markdownKey, MarkdownObject(markdownContent))];
    if markdownUrl.Err? {
      return Err(DoclingPdfFailure + markdownUrl.msg);
    }
    r := Ok(DoclingPdfResponse(documentId, filename, markdownUrl.value, processingDate));
  }
}
