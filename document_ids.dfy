/** How a processing run names its document: PDFs by file stem and
    timestamp (backend/main.py), web pages by host and timestamp (the three
    web processors). */
module DocumentIds {
  import opened Strings

  /** `urlparse(url).netloc.replace('.', '_')`. */
  function WebDomain(netloc: string): (d: string)
    ensures |d| == |netloc| && '.' !in d
    ensures forall i :: 0 <= i < |netloc| ==> d[i] == (if netloc[i] == '.' then '_' else netloc[i])
  {
    ReplaceChar(netloc, '.', '_')
  }

  /** `f"{domain}_{timestamp}"`. */
  function WebDocumentId(netloc: string, timestamp: string): (id: string)
    ensures StartsWith(id, WebDomain(netloc) + "_") && EndsWith(id, timestamp)
  {
    var id := WebDomain(netloc) + "_" + timestamp;
    assert id[..|WebDomain(netloc) + "_"|] == WebDomain(netloc) + "_";
    assert id[|id| - |timestamp|..] == timestamp;
    id
  }

  /** `f"{Path(filename).stem}_{timestamp}"`. */
  function PdfDocumentId(filename: string, timestamp: string): (id: string)
    ensures StartsWith(id, Stem(filename) + "_") && EndsWith(id, timestamp)
  {
    var id := Stem(filename) + "_" + timestamp;
    assert id[..|Stem(filename) + "_"|] == Stem(filename) + "_";
    assert id[|id| - |timestamp|..] == timestamp;
    id
  }

  /** Web document ids do not tell `.` from `_`: every host with a `.` in
      it shares its document id, at every timestamp, with a different host,
      the one with each `.` written as `_`. */
  lemma DotAndUnderscoreCollide(netloc: string, timestamp: string)
    requires '.' in netloc
    ensures WebDomain(netloc) != netloc
    ensures WebDocumentId(WebDomain(netloc), timestamp) == WebDocumentId(netloc, timestamp)
  {
    var d := WebDomain(netloc);
    assert WebDomain(d) == d;
  }
}
