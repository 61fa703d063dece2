/** The object store (backend/utils/s3.py): a bucket is a map from keys to
    stored objects; every upload helper is one `put` that replaces the
    object at one key, and the store may refuse a write. */
module Storage {
  import opened Values
  import opened Strings

  newtype byte = x: int | 0 <= x < 256

  type Bytes = seq<byte>

  /** The UTF-8 encoding of one Unicode scalar value (RFC 3629, section 3). */
  function Utf8Char(c: char): (r: Bytes)
    ensures 1 <= |r| <= 4
    ensures c as int < 0x80 ==> r == [c as int as byte]
  {
    var n := c as int;
    if n < 0x80 then [n as byte]
    else if n < 0x800 then [(0xC0 + n / 0x40) as byte, (0x80 + n % 0x40) as byte]
    else if n < 0x10000 then
      [(0xE0 + n / 0x1000) as byte, (0x80 + (n / 0x40) % 0x40) as byte, (0x80 + n % 0x40) as byte]
    else
      [(0xF0 + n / 0x40000) as byte, (0x80 + (n / 0x1000) % 0x40) as byte,
       (0x80 + (n / 0x40) % 0x40) as byte, (0x80 + n % 0x40) as byte]
  }

  /** `s.encode('utf-8')`. */
  function Utf8(s: string): (r: Bytes)
    ensures |s| <= |r| <= 4 * |s|
  {
    if |s| == 0 then [] else Utf8Char(s[0]) + Utf8(s[1..])
  }

  /** What the bucket keeps at one key: the body and the metadata the put
      set (no content type means the store's default). */
  datatype StoredObject = StoredObject(
    body: Bytes,
    contentType: Option<string>,
    publicRead: bool,
    inline: bool)

  /** The bucket name and region read from the environment. */
  datatype Endpoint = Endpoint(bucket: string, region: string)

  /** The regional public URL every upload helper except the buffer upload returns. */
  function ObjectUrl(ep: Endpoint, key: string): (url: string)
    ensures EndsWith(url, "/" + key)
  {
    var url := "https://" + ep.bucket + ".s3." + ep.region + ".amazonaws.com/" + key;
    assert url[|url| - |"/" + key|..] == "/" + key;
    url
  }

  /** The region-less URL returned by the buffer upload. */
  function GlobalUrl(ep: Endpoint, key: string): (url: string)
    ensures EndsWith(url, "/" + key)
  {
    var url := "https://" + ep.bucket + ".s3.amazonaws.com/" + key;
    assert url[|url| - |"/" + key|..] == "/" + key;
    url
  }

  /** Content type chosen by `upload_image_to_s3` for an extension. */
  function ImageContentType(ext: string): (ct: string)
    ensures ct == "application/octet-stream" <==> ext !in ["jpeg", "jpg", "png"]
    ensures ext in ["jpeg", "jpg", "png"] ==> ct == "image/" + ext
  {
    if ext in ["jpeg", "jpg", "png"] then "image/" + ext else "application/octet-stream"
  }

  /** One put: a refused key leaves the bucket as it was, any other key now
      holds `obj` and nothing else changes. */
  function Write(objects: map<string, StoredObject>, denied: map<string, string>, key: string, obj: StoredObject)
    : (r: map<string, StoredObject>)
    ensures key !in denied ==> key in r && r[key] == obj
    ensures key in denied ==> r == objects
    ensures forall k :: k != key ==> (k in r <==> k in objects) && (k in r ==> r[k] == objects[k])
  {
    if key in denied then objects else objects[key := obj]
  }

  datatype Put = Put(key: string, obj: StoredObject)

  /** The bucket after a sequence of attempted puts, in order. */
  function Written(objects: map<string, StoredObject>, denied: map<string, string>, puts: seq<Put>)
    : map<string, StoredObject>
  {
    if |puts| == 0 then objects
    else Write(Written(objects, denied, puts[..|puts| - 1]), denied, puts[|puts| - 1].key, puts[|puts| - 1].obj)
  }

  lemma WrittenAppend(objects: map<string, StoredObject>, denied: map<string, string>, puts: seq<Put>, p: Put)
    ensures Written(objects, denied, puts + [p]) == Write(Written(objects, denied, puts), denied, p.key, p.obj)
  {
    assert (puts + [p])[..|puts|] == puts;
  }

  lemma {:induction false} WrittenConcat(objects: map<string, StoredObject>, denied: map<string, string>, a: seq<Put>, b: seq<Put>)
    ensures Written(objects, denied, a + b) == Written(Written(objects, denied, a), denied, b)
    decreases |b|
  {
    if |b| == 0 {
      assert a + b == a;
    } else {
      var b' := b[..|b| - 1];
      assert (a + b)[..|a + b| - 1] == a + b';
      assert (a + b)[|a + b| - 1] == b[|b| - 1];
      WrittenConcat(objects, denied, a, b');
    }
  }

  /** A key no attempted put names keeps its old object (or stays absent). */
  lemma {:induction false} WrittenUntouched(objects: map<string, StoredObject>, denied: map<string, string>, puts: seq<Put>, k: string)
    requires forall i :: 0 <= i < |puts| ==> puts[i].key != k
    ensures k in Written(objects, denied, puts) <==> k in objects
    ensures k in objects ==> Written(objects, denied, puts)[k] == objects[k]
  {
    if |puts| > 0 {
      WrittenUntouched(objects, denied, puts[..|puts| - 1], k);
    }
  }

  /** Last write wins: the object at an accepted key is the one of the last
      put naming it. */
  lemma {:induction false} WrittenLast(objects: map<string, StoredObject>, denied: map<string, string>, puts: seq<Put>, i: nat)
    requires i < |puts| && puts[i].key !in denied
    requires forall j :: i < j < |puts| ==> puts[j].key != puts[i].key
    ensures puts[i].key in Written(objects, denied, puts)
    ensures Written(objects, denied, puts)[puts[i].key] == puts[i].obj
  {
    if i < |puts| - 1 {
      WrittenLast(objects, denied, puts[..|puts| - 1], i);
    }
  }

  /** The folder markers `ensure_s3_structure` creates. */
  const BaseFolders: seq<string> := [
    "pdf_sources/", "pdf_sources/raw/", "pdf_sources/extracted_markdown/", "pdf_sources/extracted_images/",
    "web_sources/", "web_sources/raw/", "web_sources/extracted_markdown/", "web_sources/extracted_images/"]

  /** An empty marker object, as `put_object` with no body writes it. */
  const FolderMarker: StoredObject := StoredObject([], None, false, false)

  function FolderPuts(folders: seq<string>): (ps: seq<Put>)
    ensures |ps| == |folders|
    ensures forall i :: 0 <= i < |ps| ==> ps[i] == Put(folders[i], FolderMarker)
  {
    if |folders| == 0 then [] else [Put(folders[0], FolderMarker)] + FolderPuts(folders[1..])
  }

  /** Number of folders that get written before the first refused one. */
  function AcceptedPrefix(folders: seq<string>, denied: map<string, string>): (n: nat)
    ensures n <= |folders|
    ensures forall i :: 0 <= i < n ==> folders[i] !in denied
    ensures n < |folders| ==> folders[n] in denied
  {
    if |folders| == 0 || folders[0] in denied then 0 else 1 + AcceptedPrefix(folders[1..], denied)
  }

  /** `{source_type}_sources/{category}/{document_id}/{filename}`. */
  function SourcesKey(sourceType: string, category: string, documentId: string, filename: string): (key: string)
    ensures EndsWith(key, "/" + filename)
  {
    var key := sourceType + "_sources/" + category + "/" + documentId + "/" + filename;
    assert key[|key| - |"/" + filename|..] == "/" + filename;
    key
  }

  /** The category sits right after `{source}_sources/`. */
  lemma SourcesKeyCategory(sourceType: string, category: string, documentId: string, filename: string, i: nat)
    requires i < |category|
    ensures |SourcesKey(sourceType, category, documentId, filename)| > |sourceType| + 9 + i
    ensures SourcesKey(sourceType, category, documentId, filename)[|sourceType| + 9 + i] == category[i]
  {
    var front := sourceType + "_sources/";
    assert |front| == |sourceType| + 9;
    var key := SourcesKey(sourceType, category, documentId, filename);
    assert key == (front + category) + ("/" + documentId + "/" + filename);
  }

  /** Within one folder, distinct file names give distinct keys. */
  lemma SourcesKeyInjective(sourceType: string, category: string, documentId: string, f: string, g: string)
    requires SourcesKey(sourceType, category, documentId, f) == SourcesKey(sourceType, category, documentId, g)
    ensures f == g
  {
    var prefix := sourceType + "_sources/" + category + "/" + documentId + "/";
    assert f == (prefix + f)[|prefix|..];
    assert g == (prefix + g)[|prefix|..];
  }

  /** Where `upload_processed_content_to_s3` sends one walked file and with
      which content type; `None` when the walk skips the file. */
  function WalkTarget(sourceType: string, documentId: string, relativePath: string, filename: string)
    : (r: Option<(string, string)>)
    ensures Contains(relativePath, "raw") ==> r == None
    ensures !Contains(relativePath, "raw") && Contains(relativePath, "extracted_markdown") ==>
              r == Some((SourcesKey(sourceType, "extracted_markdown", documentId, filename), "text/markdown"))
    ensures !Contains(relativePath, "raw") && !Contains(relativePath, "extracted_markdown")
            && Contains(relativePath, "extracted_images") ==>
              r == Some((SourcesKey(sourceType, "extracted_images", documentId, filename), WalkImageContentType(filename)))
    ensures r.Some? <==> (!Contains(relativePath, "raw")
                          && (Contains(relativePath, "extracted_markdown") || Contains(relativePath, "extracted_images")))
  {
    if Contains(relativePath, "raw") then None
    else if Contains(relativePath, "extracted_markdown") then
      Some((SourcesKey(sourceType, "extracted_markdown", documentId, filename), "text/markdown"))
    else if Contains(relativePath, "extracted_images") then
      Some((SourcesKey(sourceType, "extracted_images", documentId, filename), WalkImageContentType(filename)))
    else None
  }

  /** The error `upload_markdown_to_s3` returns for a refused upload. */
  function MarkdownUploadError(reason: string): string
  {
    "Failed to upload markdown to S3: " + reason
  }

  /** Content type of a walked image, from the lower-cased text after its
      last `.`: png, then jpg or jpeg, and anything else as an octet stream;
      a name without a `.` is its own extension. */
  function WalkImageContentType(filename: string): (ct: string)
    ensures EndsWith(Lower(filename), ".png") ==> ct == "image/png"
    ensures EndsWith(Lower(filename), ".jpg") || EndsWith(Lower(filename), ".jpeg") ==> ct == "image/jpeg"
    ensures ('.' in filename && !EndsWith(Lower(filename), ".png") && !EndsWith(Lower(filename), ".jpg")
             && !EndsWith(Lower(filename), ".jpeg")) ==> ct == "application/octet-stream"
    ensures '.' !in filename ==> ct == ExtContentType(Lower(filename))
  {
    LowerKeepsDot(filename);
    PngContentType(Lower(filename));
    JpgContentType(Lower(filename));
    JpegContentType(Lower(filename));
    OtherContentType(Lower(filename));
    ExtContentType(LastPart(Lower(filename), '.'))
  }

  /** The content type the walk gives extension `ext`. */
  function ExtContentType(ext: string): string
  {
    if ext == "png" then "image/png"
    else if ext == "jpg" || ext == "jpeg" then "image/jpeg"
    else "application/octet-stream"
  }

  /** A name ending in `.png` is a PNG to the walk. */
  lemma PngContentType(name: string)
    ensures EndsWith(name, ".png") ==> ExtContentType(LastPart(name, '.')) == "image/png"
  {
    ImageExtension(name, "png", ".png");
  }

  /** A name ending in `.jpg` is a JPEG to the walk. */
  lemma JpgContentType(name: string)
    ensures EndsWith(name, ".jpg") ==> ExtContentType(LastPart(name, '.')) == "image/jpeg"
  {
    ImageExtension(name, "jpg", ".jpg");
  }

  /** A name ending in `.jpeg` is a JPEG to the walk. */
  lemma JpegContentType(name: string)
    ensures EndsWith(name, ".jpeg") ==> ExtContentType(LastPart(name, '.')) == "image/jpeg"
  {
    ImageExtension(name, "jpeg", ".jpeg");
  }

  /** A name with a `.` and none of the three endings is an octet stream. */
  lemma OtherContentType(name: string)
    ensures '.' in name && !EndsWith(name, ".png") && !EndsWith(name, ".jpg") && !EndsWith(name, ".jpeg")
            ==> ExtContentType(LastPart(name, '.')) == "application/octet-stream"
  {
    if '.' in name && !EndsWith(name, ".png") && !EndsWith(name, ".jpg") && !EndsWith(name, ".jpeg") {
      NotExtension(name, "png", ".png");
      NotExtension(name, "jpg", ".jpg");
      NotExtension(name, "jpeg", ".jpeg");
    }
  }

  /** A name with a `.` that does not end with `dotExt` has another extension. */
  lemma NotExtension(name: string, ext: string, dotExt: string)
    requires '.' in name && '.' !in ext && dotExt == ['.'] + ext && !EndsWith(name, dotExt)
    ensures LastPart(name, '.') != ext
  {
    ImageExtension(name, ext, dotExt);
  }

  /** For a name with a `.`, its extension is `ext` exactly when it ends
      with `dotExt`, the `.` followed by `ext`. */
  lemma ImageExtension(name: string, ext: string, dotExt: string)
    requires '.' !in ext && dotExt == ['.'] + ext
    ensures '.' in name ==> (LastPart(name, '.') == ext <==> EndsWith(name, dotExt))
    ensures EndsWith(name, dotExt) ==> '.' in name
  {
    LastPartIs(name, '.', ext);
    if EndsWith(name, dotExt) {
      assert name[|name| - |ext| - 1] == '.';
    }
  }

  class Bucket {
    const endpoint: Endpoint
    /** Keys whose writes the store refuses, each with the error text the
        client library reports (credentials, quota, connectivity). */
    const denied: map<string, string>
    /** Keys whose reads the store refuses, each with the error text the
        client library reports. */
    const unreadable: map<string, string>
    var objects: map<string, StoredObject>

    constructor (endpoint: Endpoint, denied: map<string, string>, unreadable: map<string, string>,
                 objects: map<string, StoredObject>)
      ensures this.endpoint == endpoint && this.denied == denied && this.unreadable == unreadable
      ensures this.objects == objects
    {
      this.endpoint := endpoint;
      this.denied := denied;
      this.unreadable := unreadable;
      this.objects := objects;
    }

    /** `upload_to_s3`: always public-read, a content type only when one is given. */
    method UploadToS3(content: Bytes, key: string, contentType: Option<string>) returns (r: Result<string>)
      modifies this
      ensures objects == Write(old(objects), denied, key,
                               StoredObject(content, if contentType == Some("") then None else contentType, true, false))
      ensures r == if key in denied then Err("Failed to upload to S3: " + denied[key]) else Ok(ObjectUrl(endpoint, key))
    {
      if key in denied {
        return Err("Failed to upload to S3: " + denied[key]);
      }
      var ct := if contentType == Some("") then None else contentType;
      objects := objects[key := StoredObject(content, ct, true, false)];
      r := Ok(ObjectUrl(endpoint, key));
    }

    /** `get_from_s3`: the stored bytes; a refused read fails with the store's
        text, and so does a missing key. */
    method GetFromS3(key: string) returns (r: Result<Bytes>)
      ensures r == ReadObject(unreadable, objects, key)
    {
      if key in unreadable {
        r := Err("Failed to get file from S3: " + unreadable[key]);
      } else if key in objects {
        r := Ok(objects[key].body);
      } else {
        r := Err("Failed to get file from S3: " + NoSuchKey);
      }
    }

    /** `upload_image_buffer_to_s3`: `image/png`, not public, region-less URL. */
    method UploadImageBufferToS3(buffer: Bytes, key: string) returns (r: Result<string>)
      modifies this
      ensures objects == Write(old(objects), denied, key, StoredObject(buffer, Some("image/png"), false, false))
      ensures r == if key in denied then Err("Failed to upload image to S3: " + denied[key]) else Ok(GlobalUrl(endpoint, key))
    {
      if key in denied {
        return Err("Failed to upload image to S3: " + denied[key]);
      }
      objects := objects[key := StoredObject(buffer, Some("image/png"), false, false)];
      r := Ok(GlobalUrl(endpoint, key));
    }

    /** `upload_image_to_s3`. */
    method UploadImageToS3(image: Bytes, key: string, ext: string) returns (r: Result<string>)
      modifies this
      ensures objects == Write(old(objects), denied, key, ImageObject(image, ext))
      ensures r == if key in denied then Err("Failed to upload image to S3: " + denied[key]) else Ok(ObjectUrl(endpoint, key))
    {
      if key in denied {
        return Err("Failed to upload image to S3: " + denied[key]);
      }
      objects := objects[key := ImageObject(image, ext)];
      r := Ok(ObjectUrl(endpoint, key));
    }

    /** `upload_pdf_to_s3`: the raw PDF under the raw layout, no metadata,
        and `{'raw_pdf': url}`. */
    method UploadPdfToS3(content: Bytes, filename: string, documentId: string) returns (r: Result<Dict<string>>)
      modifies this
      ensures objects == Write(old(objects), denied, SourcesKey("pdf", "raw", documentId, filename),
                               StoredObject(content, None, false, false))
      ensures var key := SourcesKey("pdf", "raw", documentId, filename);
              r == if key in denied then Err("Failed to upload PDF to S3: " + denied[key])
                   else Ok([("raw_pdf", ObjectUrl(endpoint, key))])
    {
      var key := SourcesKey("pdf", "raw", documentId, filename);
      if key in denied {
        return Err("Failed to upload PDF to S3: " + denied[key]);
      }
      objects := objects[key := StoredObject(content, None, false, false)];
      r := Ok([("raw_pdf", ObjectUrl(endpoint, key))]);
    }

    /** `upload_markdown_to_s3`: UTF-8 bytes as `text/markdown`, not public. */
    method UploadMarkdownToS3(content: string, key: string) returns (r: Result<string>)
      modifies this
      ensures objects == Write(old(objects), denied, key, MarkdownObject(content))
      ensures r == if key in denied then Err(MarkdownUploadError(denied[key])) else Ok(ObjectUrl(endpoint, key))
    {
      if key in denied {
        return Err(MarkdownUploadError(denied[key]));
      }
      objects := objects[key := MarkdownObject(content)];
      r := Ok(ObjectUrl(endpoint, key));
    }

    /** `ensure_s3_structure`: writes the folder markers in order and
        reports false at the first refused one. */
    method EnsureStructure() returns (ok: bool)
      modifies this
      ensures ok <==> forall i :: 0 <= i < |BaseFolders| ==> BaseFolders[i] !in denied
      ensures objects == Written(old(objects), denied, FolderPuts(BaseFolders)[..AcceptedPrefix(BaseFolders, denied)])
    {
      ok := WriteFolders(BaseFolders);
    }

    /** The loop of `ensure_s3_structure` over `folders`. */
    method WriteFolders(folders: seq<string>) returns (ok: bool)
      modifies this
      ensures ok <==> forall i :: 0 <= i < |folders| ==> folders[i] !in denied
      ensures objects == Written(old(objects), denied, FolderPuts(folders)[..AcceptedPrefix(folders, denied)])
    {
      var i := 0;
      while i < |folders|
        invariant 0 <= i <= AcceptedPrefix(folders, denied)
        invariant objects == Written(old(objects), denied, FolderPuts(folders)[..i])
      {
        if folders[i] in denied {
          AcceptedPrefixIs(folders, denied, i);
          return false;
        }
        WriteFolder(old(objects), folders, i);
        i := i + 1;
      }
      ok := true;
    }

    /** One accepted folder marker of the loop. */
    method WriteFolder(ghost objects0: map<string, StoredObject>, folders: seq<string>, i: nat)
      requires i < |folders| && folders[i] !in denied && i <= AcceptedPrefix(folders, denied)
      requires objects == Written(objects0, denied, FolderPuts(folders)[..i])
      modifies this
      ensures i + 1 <= AcceptedPrefix(folders, denied)
      ensures objects == Written(objects0, denied, FolderPuts(folders)[..i + 1])
    {
      FolderWritten(objects0, denied, folders, i);
      AcceptedPrefixNext(folders, denied, i);
      objects := objects[folders[i] := FolderMarker];
    }
  }

  /** What `get_from_s3` yields for `key`: a read the store refuses fails
      with its text, a missing key with `NoSuchKey`, and otherwise the body
      stored under `key` comes back. */
  function ReadObject(unreadable: map<string, string>, objects: map<string, StoredObject>, key: string)
    : (r: Result<Bytes>)
    ensures r.Ok? <==> key !in unreadable && key in objects
    ensures r.Ok? ==> r.value == objects[key].body
    ensures key in unreadable ==> r == Err("Failed to get file from S3: " + unreadable[key])
    ensures key !in unreadable && key !in objects ==> r == Err("Failed to get file from S3: " + NoSuchKey)
  {
    if key in unreadable then Err("Failed to get file from S3: " + unreadable[key])
    else if key in objects then Ok(objects[key].body)
    else Err("Failed to get file from S3: " + NoSuchKey)
  }

  /** Reading back what was just written returns the bytes written, unless
      the store refuses the read. */
  lemma ReadAfterWrite(unreadable: map<string, string>, denied: map<string, string>,
                       objects: map<string, StoredObject>, key: string, o: StoredObject)
    requires key !in denied
    ensures ReadObject(unreadable, Write(objects, denied, key, o), key)
            == if key in unreadable then Err("Failed to get file from S3: " + unreadable[key]) else Ok(o.body)
  {
  }

  const NoSuchKey := "An error occurred (NoSuchKey) when calling the GetObject operation: The specified key does not exist."

  function ImageObject(image: Bytes, ext: string): StoredObject
  {
    StoredObject(image, Some(ImageContentType(ext)), true, false)
  }

  function MarkdownObject(content: string): StoredObject
  {
    StoredObject(Utf8(content), Some("text/markdown"), false, false)
  }

  /** Writing the next accepted folder marker extends the written prefix by one. */
  lemma FolderWritten(objects: map<string, StoredObject>, denied: map<string, string>, folders: seq<string>, i: nat)
    requires i < |folders| && folders[i] !in denied
    ensures Written(objects, denied, FolderPuts(folders)[..i + 1])
            == Written(objects, denied, FolderPuts(folders)[..i])[folders[i] := FolderMarker]
  {
    var puts := FolderPuts(folders);
    assert puts[..i + 1][..i] == puts[..i];
  }

  /** An accepted folder within the prefix is followed by more of it. */
  lemma AcceptedPrefixNext(folders: seq<string>, denied: map<string, string>, i: nat)
    requires i <= AcceptedPrefix(folders, denied) && i < |folders| && folders[i] !in denied
    ensures i + 1 <= AcceptedPrefix(folders, denied)
  {
  }

  lemma {:induction false} AcceptedPrefixIs(folders: seq<string>, denied: map<string, string>, n: nat)
    requires n <= |folders|
    requires forall i :: 0 <= i < n ==> folders[i] !in denied
    requires n < |folders| ==> folders[n] in denied
    ensures AcceptedPrefix(folders, denied) == n
  {
    if n > 0 {
      AcceptedPrefixIs(folders[1..], denied, n - 1);
    }
  }
}
