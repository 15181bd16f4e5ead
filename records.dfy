/** The records the endpoints of endpoints/main.py read and write: uploads,
    the `documents` and `chats` rows of endpoints/models.py, the HTTP errors
    they answer with, and the object key and public URL of a stored upload.
    Timestamps are integers. */
module Records {
  import opened Wrappers
  import opened TextOps
  import opened Collaborators

  /** An uploaded file, with the identifier `uuid4()` drew for it. */
  datatype Upload = Upload(filename: string, contentType: string, content: Bytes, fileId: string)

  datatype DocumentRow = DocumentRow(
    userId: int,
    category: Option<string>,
    isImportant: bool,
    isDeleted: bool,
    documentUrl: string,
    chatName: Option<string>,
    doctype: string,
    foldername: Option<string>,
    timestamp: int)

  datatype ChatRow = ChatRow(chatName: string, query: string, response: string, timestamp: int, userId: int)

  /** The status an endpoint answers with when it does not succeed. */
  datatype HttpError = BadRequest(detail: string) | NotFound(detail: string) | ServerError

  /** The folder of the bucket every chat upload is stored under. */
  const KeyFolder: string := "documents"

  /** `documents/{file_id}_{filename}`. */
  function ObjectKey(fileId: string, filename: string): (r: string)
    ensures |r| == |KeyFolder| + 1 + |fileId| + 1 + |filename|
    ensures r[..|KeyFolder|] == KeyFolder && r[|KeyFolder|] == '/'
    ensures r[|KeyFolder| + 1..|KeyFolder| + 1 + |fileId|] == fileId
    ensures r[|r| - |filename|..] == filename
    ensures r[|r| - |filename| - 1] == '_'
  {
    var r := KeyFolder + "/" + fileId + "_" + filename;
    assert r == KeyFolder + ("/" + (fileId + ("_" + filename)));
    assert r == (KeyFolder + "/" + fileId) + ("_" + filename);
    r
  }

  /** `https://{bucket}.s3.{region}.amazonaws.com/{key}`. */
  function DocumentUrl(bucket: string, region: string, key: string): (r: string)
    ensures |key| < |r| && r[|r| - |key|..] == key && r[|r| - |key| - 1] == '/'
    ensures r[..|r| - |key|] == "https://" + bucket + ".s3." + region + ".amazonaws.com/"
  {
    var r := "https://" + bucket + ".s3." + region + ".amazonaws.com/" + key;
    assert r == ("https://" + bucket + ".s3." + region + ".amazonaws.com") + ("/" + key);
    r
  }

  /** The name `search_documents` compares: after the last '/', then after
      the last '_', then before the first '.'. */
  function FileKey(url: string): (r: string)
    ensures |r| <= |url|
  {
    BeforeFirst(AfterLast(AfterLast(url, '/'), '_'), '.')
  }

  /** The public URL of the bucket's upload folder, without the final '/'. */
  function UrlHead(bucket: string, region: string): string {
    "https://" + bucket + ".s3." + region + ".amazonaws.com/" + KeyFolder
  }

  /** A stored upload's URL is the folder's URL, '/', then `{file_id}_{filename}`. */
  lemma StoredUrl(bucket: string, region: string, fileId: string, filename: string)
    ensures DocumentUrl(bucket, region, ObjectKey(fileId, filename)) == UrlHead(bucket, region) + ['/'] + (fileId + "_" + filename)
  {
    assert ObjectKey(fileId, filename) == KeyFolder + ("/" + (fileId + "_" + filename));
  }

  /** The search key holds none of the three separators it was cut at. */
  lemma FileKeyHasNoSeparators(url: string)
    ensures var r := FileKey(url);
      '/' !in r && '_' !in r && '.' !in r
  {
    var fullFilename := AfterLast(url, '/');
    var actual := AfterLast(fullFilename, '_');
    AfterLastHasNo(url, '/');
    AfterLastHasNo(fullFilename, '_');
    BeforeFirstHasNo(actual, '.');
    AfterLastSuffix(fullFilename, '_');
    SliceKeepsAbsent(fullFilename, '/', |fullFilename| - |actual|, |fullFilename|);
    var r := BeforeFirst(actual, '.');
    SliceKeepsAbsent(actual, '/', 0, |r|);
    SliceKeepsAbsent(actual, '_', 0, |r|);
  }

  /** The search key of a stored upload is its filename up to the first '.',
      when neither the file identifier nor the filename holds a '/' and the
      filename holds no '_'. */
  lemma FileKeyOfStoredUpload(bucket: string, region: string, fileId: string, stem: string, ext: string)
    requires '/' !in fileId
    requires '/' !in stem && '_' !in stem && '.' !in stem
    requires '/' !in ext && '_' !in ext
    ensures FileKey(DocumentUrl(bucket, region, ObjectKey(fileId, stem + "." + ext))) == stem
  {
    var filename := stem + "." + ext;
    assert '/' !in filename && '_' !in filename by {
      forall k | 0 <= k < |filename| ensures filename[k] != '/' && filename[k] != '_' {
        if k < |stem| { assert filename[k] == stem[k]; }
        else if k > |stem| { assert filename[k] == ext[k - |stem| - 1]; }
      }
    }
    var name := fileId + "_" + filename;
    assert '/' !in name by {
      forall k | 0 <= k < |name| ensures name[k] != '/' {
        if k < |fileId| { assert name[k] == fileId[k]; }
        else if k > |fileId| { assert name[k] == filename[k - |fileId| - 1]; }
      }
    }
    var head := UrlHead(bucket, region);
    StoredUrl(bucket, region, fileId, filename);
    AfterLastAt(head, '/', name);
    AfterLastAt(fileId, '_', filename);
    BeforeFirstAt(stem, '.', ext);
  }

  /** A filename with a '_' is searched by its part after the last '_'. */
  lemma FileKeyAfterUnderscore(bucket: string, region: string, fileId: string, first: string, stem: string, ext: string)
    requires '/' !in fileId && '/' !in first
    requires '/' !in stem && '_' !in stem && '.' !in stem
    requires '/' !in ext && '_' !in ext
    ensures FileKey(DocumentUrl(bucket, region, ObjectKey(fileId, first + "_" + stem + "." + ext))) == stem
  {
    var filename := first + "_" + stem + "." + ext;
    var last := stem + "." + ext;
    assert filename == first + ['_'] + last;
    assert '/' !in last && '_' !in last by {
      forall k | 0 <= k < |last| ensures last[k] != '/' && last[k] != '_' {
        if k < |stem| { assert last[k] == stem[k]; }
        else if k > |stem| { assert last[k] == ext[k - |stem| - 1]; }
      }
    }
    var name := fileId + "_" + filename;
    assert '/' !in name by {
      forall k | 0 <= k < |name| ensures name[k] != '/' {
        if k < |fileId| { assert name[k] == fileId[k]; }
        else if k == |fileId| { }
        else if k < |fileId| + 1 + |first| { assert name[k] == first[k - |fileId| - 1]; }
        else if k > |fileId| + 1 + |first| { assert name[k] == last[k - |fileId| - 2 - |first|]; }
      }
    }
    var head := UrlHead(bucket, region);
    StoredUrl(bucket, region, fileId, filename);
    assert name == (fileId + "_" + first) + ['_'] + last;
    AfterLastAt(head, '/', name);
    AfterLastAt(fileId + "_" + first, '_', last);
    BeforeFirstAt(stem, '.', ext);
  }
}
