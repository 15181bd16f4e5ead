/** The decision logic of the three endpoints of endpoints/main.py that drive
    the pipeline: `upload_and_initialize`, `chat` and `upload_files_to_chat`,
    with their upload gate. S3 is reduced to whether storing an object
    succeeds; the database to the rows the endpoints append. Any exception an
    endpoint does not turn into an HTTP error itself is a 500. */
module Endpoints {
  import opened Wrappers
  import opened Collaborators
  import opened Records
  import opened Extraction
  import opened VectorStore
  import Category
  import ChatName
  import Llm

  const TextPlain: string := "text/plain"

  /** The content types an upload may have, and the document type each is recorded as. */
  const MimeTypeMap: map<string, string> := map[
    PdfType := "pdf",
    DocType := "doc",
    DocxType := "docx",
    TextPlain := "txt",
    JpegType := "jpg",
    PngType := "png"]

  const UnsupportedDetail: string := "Unsupported file type"

  /** `MIME_TYPE_MAP.get(content_type)`; every value is non-empty, so
      `if not doc_type` rejects exactly the missing keys. */
  function DocTypeOf(contentType: string): (r: Option<string>)
    ensures r.Some? <==> contentType in MimeTypeMap
    ensures r.Some? ==> r.value == MimeTypeMap[contentType] && r.value != ""
  {
    if contentType in MimeTypeMap then Some(MimeTypeMap[contentType]) else None
  }

  /** The outside services of one request. `s3Ok(key)` says whether storing
      the object `key` (upload, then metadata copy) succeeds. */
  datatype Env = Env(
    eng: Engines,
    llm: Generator,
    retrieve: Llm.Retriever,
    split: Splitter,
    s3Ok: string -> bool,
    bucket: string,
    region: string)

  /** The state the endpoints change: the vector store's collections, the
      local files, and the `documents` and `chats` tables. */
  datatype World = World(
    cols: map<string, Collection>,
    files: map<string, Bytes>,
    docs: seq<DocumentRow>,
    chats: seq<ChatRow>)

  /** The two tables, append-only as far as these endpoints go. */
  class Db {
    var documents: seq<DocumentRow>
    var chats: seq<ChatRow>

    constructor ()
      ensures documents == [] && chats == []
    {
      documents := [];
      chats := [];
    }

    method AddDocument(row: DocumentRow)
      modifies this
      ensures documents == old(documents) + [row] && chats == old(chats)
    {
      documents := documents + [row];
    }

    method AddChat(row: ChatRow)
      modifies this
      ensures chats == old(chats) + [row] && documents == old(documents)
    {
      chats := chats + [row];
    }
  }

  ghost function WorldOf(store: Store, disk: Disk, db: Db): World
    reads store, disk, db
  {
    World(store.collections, disk.files, db.documents, db.chats)
  }

  /** The local files after `process_file` of an upload: only Word uploads write. */
  function FilesAfterExtraction(files: map<string, Bytes>, up: Upload, eng: Engines): map<string, Bytes> {
    if HandlerFor(up.contentType) == Some(WordHandler) then AfterWordConversion(files, up.content, eng.convert) else files
  }

  // ---------------------------------------------------------------------------
  // Properties of the upload gate

  /** The gate admits exactly the five extractable types and "text/plain". */
  lemma GateKeys()
    ensures MimeTypeMap.Keys == ExtractableTypes + {TextPlain}
  {
  }

  /** "text/plain" is the one type the gate admits and extraction rejects. */
  lemma GateExtractionMismatch(contentType: string)
    ensures contentType in MimeTypeMap && contentType !in ExtractableTypes <==> contentType == TextPlain
  {
    assert TextPlain[0] == 't' && JpegType[0] == 'i';
    assert |TextPlain| != |PdfType| && |TextPlain| != |DocType| && |TextPlain| != |DocxType| && |TextPlain| != |PngType|;
  }

  // ---------------------------------------------------------------------------
  // upload_and_initialize

  /** A stored upload's text and the label the classifier gave it. */
  datatype Classification = Classification(text: string, category: string)

  /** `process_file`, then `classify_document_content` of rag/category.py;
      None when either raises. */
  function Classified(up: Upload, env: Env): (r: Option<Classification>)
    ensures r.Some? ==> Extracted(up.content, up.contentType, env.eng) == Success(r.value.text)
    ensures r.Some? ==> Category.ClassifyDocumentContent(r.value.text, env.llm) == Success(r.value.category)
    ensures r.Some? ==> r.value.category in Category.ValidCategories
    ensures Extracted(up.content, up.contentType, env.eng).Failure? ==> r.None?
  {
    match Extracted(up.content, up.contentType, env.eng)
    case Failure(_) => None
    case Success(text) =>
      match Category.ClassifyDocumentContent(text, env.llm)
      case Failure(_) => None
      case Success(category) => Some(Classification(text, category))
  }

  /** Extract and classify an upload; only the Word path writes local files. */
  method ExtractAndClassify(up: Upload, env: Env, disk: Disk) returns (c: Option<Classification>)
    modifies disk
    ensures c == Classified(up, env)
    ensures disk.files == FilesAfterExtraction(old(disk.files), up, env.eng)
  {
    var documentText := ProcessFile(up.content, up.contentType, env.eng, disk);
    if documentText.Failure? {
      return None;
    }
    var category := Category.ClassifyDocumentContent(documentText.value, env.llm);
    if category.Failure? {
      return None;
    }
    return Some(Classification(documentText.value, category.value));
  }

  datatype InitReply = InitReply(chatName: string, initialResponse: string)

  /** The collections once `upload_and_initialize` has looked its chat name up:
      embedded into only when the name was new. */
  function InitCollections(cols: map<string, Collection>, chatName: string, text: string, split: Splitter): (r: map<string, Collection>)
    ensures chatName in r
    ensures chatName in cols ==> r == cols
    ensures chatName !in cols ==> r == Embedded(cols, chatName, Some(text), split)
  {
    if chatName in cols then cols else Embedded(cols, chatName, Some(text), split)
  }

  /** The end of `upload_and_initialize`, once the chat is named: embed if
      new, answer, and record the document and the exchange. */
  function Conclude(c: Classification, chatName: string, docUrl: string, docType: string,
                    userId: int, query: string, env: Env, now: int, w: World): (r: (Result<InitReply, HttpError>, World))
    ensures r.1.cols == InitCollections(w.cols, chatName, c.text, env.split)
    ensures r.1.files == w.files
    ensures var answer := Llm.QueryLlm(InitCollections(w.cols, chatName, c.text, env.split), chatName, query, env.retrieve, env.llm);
      && (r.0.Success? <==> answer.Success?)
      && (r.0.Success? ==> r.0.value.initialResponse == answer.value)
    ensures r.0.Failure? ==> r.0 == Failure(ServerError) && r.1.docs == w.docs && r.1.chats == w.chats
    ensures r.0.Success? ==> r.0.value.chatName == chatName
    ensures r.0.Success? ==>
      && r.1.docs == w.docs + [DocumentRow(userId, Some(c.category), false, false, docUrl, Some(chatName), docType, None, now)]
      && r.1.chats == w.chats + [ChatRow(chatName, query, r.0.value.initialResponse, now, userId)]
  {
    var cols := InitCollections(w.cols, chatName, c.text, env.split);
    match Llm.QueryLlm(cols, chatName, query, env.retrieve, env.llm)
    case Failure(_) => (Failure(ServerError), w.(cols := cols))
    case Success(response) =>
      (Success(InitReply(chatName, response)),
       w.(cols := cols,
          docs := w.docs + [DocumentRow(userId, Some(c.category), false, false, docUrl, Some(chatName), docType, None, now)],
          chats := w.chats + [ChatRow(chatName, query, response, now, userId)]))
  }

  /** What `upload_and_initialize` answers, and the state it leaves. */
  function Initialize(up: Upload, userId: int, query: string, env: Env, now: int, w: World): (r: (Result<InitReply, HttpError>, World))
    ensures DocTypeOf(up.contentType).None? ==> r == (Failure(BadRequest(UnsupportedDetail)), w)
    ensures r.0.Failure? ==> r.1.docs == w.docs && r.1.chats == w.chats
    ensures r.0.Success? ==> |r.1.docs| == |w.docs| + 1 && |r.1.chats| == |w.chats| + 1
    ensures r.0.Failure? ==> r.0.error == ServerError || r.0.error == BadRequest(UnsupportedDetail)
  {
    match DocTypeOf(up.contentType)
    case None => (Failure(BadRequest(UnsupportedDetail)), w)
    case Some(docType) =>
      var fileKey := ObjectKey(up.fileId, up.filename);
      if !env.s3Ok(fileKey) then (Failure(ServerError), w)
      else
        var w1 := w.(files := FilesAfterExtraction(w.files, up, env.eng));
        match Classified(up, env)
        case None => (Failure(ServerError), w1)
        case Some(c) =>
          match ChatName.CreateChatName(c.text, query, env.llm)
          case Failure(_) => (Failure(ServerError), w1)
          case Success(chatName) =>
            Conclude(c, chatName, DocumentUrl(env.bucket, env.region, fileKey), docType, userId, query, env, now, w1)
  }

  /** `upload_and_initialize`: gate, store, extract, classify, name the chat,
      embed only into a new collection, answer the query, record both rows. */
  method UploadAndInitialize(up: Upload, userId: int, query: string, env: Env, now: int, store: Store, disk: Disk, db: Db)
    returns (r: Result<InitReply, HttpError>)
    requires store.Valid()
    modifies store, disk, db
    ensures store.Valid()
    ensures (r, WorldOf(store, disk, db)) == Initialize(up, userId, query, env, now, old(WorldOf(store, disk, db)))
  {
    var docType := DocTypeOf(up.contentType);
    if docType.None? {
      return Failure(BadRequest(UnsupportedDetail));
    }
    var fileKey := ObjectKey(up.fileId, up.filename);
    if !env.s3Ok(fileKey) {
      return Failure(ServerError);
    }
    var docUrl := DocumentUrl(env.bucket, env.region, fileKey);
    var classified := ExtractAndClassify(up, env, disk);
    if classified.None? {
      return Failure(ServerError);
    }
    var c := classified.value;
    var chatName := ChatName.CreateChatName(c.text, query, env.llm);
    if chatName.Failure? {
      return Failure(ServerError);
    }
    r := AnswerAndRecord(c, chatName.value, docUrl, docType.value, userId, query, env, now, store, disk, db);
  }

  /** The end of `upload_and_initialize`, once the chat is named. */
  method AnswerAndRecord(c: Classification, chatName: string, docUrl: string, docType: string,
                         userId: int, query: string, env: Env, now: int, store: Store, disk: Disk, db: Db)
    returns (r: Result<InitReply, HttpError>)
    requires store.Valid()
    modifies store, db
    ensures store.Valid()
    ensures (r, WorldOf(store, disk, db)) == Conclude(c, chatName, docUrl, docType, userId, query, env, now, old(WorldOf(store, disk, db)))
  {
    var found := store.CollectionExists(chatName);
    if !found {
      store.HandleChatEmbeddings(chatName, Some(c.text), env.split);
    }
    var response := Llm.QueryLlm(store.collections, chatName, query, env.retrieve, env.llm);
    if response.Failure? {
      return Failure(ServerError);
    }
    db.AddDocument(DocumentRow(userId, Some(c.category), false, false, docUrl, Some(chatName), docType, None, now));
    db.AddChat(ChatRow(chatName, query, response.value, now, userId));
    return Success(InitReply(chatName, response.value));
  }

  /** A "text/plain" upload passes the gate and is stored, then fails
      extraction: the answer is a 500 and nothing is recorded. */
  lemma InitializePlainText(up: Upload, userId: int, query: string, env: Env, now: int, w: World)
    requires up.contentType == TextPlain
    ensures DocTypeOf(up.contentType) == Some("txt")
    ensures Initialize(up, userId, query, env, now, w) == (Failure(ServerError), w)
  {
    GateExtractionMismatch(up.contentType);
  }

  /** `upload_and_initialize` succeeds exactly when the type passes the gate,
      the upload is stored, its text is extracted and classified, the chat is
      named and the query is answered from the chat's collection, once that
      collection is set up; its answer is the one given there. */
  lemma InitializeSucceeds(up: Upload, userId: int, query: string, env: Env, now: int, w: World)
    ensures Initialize(up, userId, query, env, now, w).0.Success? <==>
      && up.contentType in MimeTypeMap
      && env.s3Ok(ObjectKey(up.fileId, up.filename))
      && Classified(up, env).Some?
      && ChatName.CreateChatName(Classified(up, env).value.text, query, env.llm).Success?
      && var c := Classified(up, env).value;
        var name := ChatName.CreateChatName(c.text, query, env.llm).value;
        Llm.QueryLlm(InitCollections(w.cols, name, c.text, env.split), name, query, env.retrieve, env.llm).Success?
    ensures Initialize(up, userId, query, env, now, w).0.Success? ==>
      var c := Classified(up, env).value;
      var name := ChatName.CreateChatName(c.text, query, env.llm).value;
      Initialize(up, userId, query, env, now, w).0.value ==
        InitReply(name, Llm.QueryLlm(InitCollections(w.cols, name, c.text, env.split), name, query, env.retrieve, env.llm).value)
  {
  }

  /** When the generated name is already a collection, the new document is not
      embedded: the collections are left exactly as they were, and the query is
      answered from the collection as it was. */
  lemma InitializeExistingNameNotEmbedded(up: Upload, userId: int, query: string, env: Env, now: int, w: World)
    requires Initialize(up, userId, query, env, now, w).0.Success?
    requires Initialize(up, userId, query, env, now, w).0.value.chatName in w.cols
    ensures Initialize(up, userId, query, env, now, w).1.cols == w.cols
    ensures var name := Initialize(up, userId, query, env, now, w).0.value.chatName;
      Llm.QueryLlm(w.cols, name, query, env.retrieve, env.llm) ==
        Success(Initialize(up, userId, query, env, now, w).0.value.initialResponse)
  {
    InitializeSucceeds(up, userId, query, env, now, w);
  }

  /** A new name gets a new collection holding the document's chunks. */
  lemma InitializeNewNameEmbedded(up: Upload, userId: int, query: string, env: Env, now: int, w: World)
    requires Initialize(up, userId, query, env, now, w).0.Success?
    requires Initialize(up, userId, query, env, now, w).0.value.chatName !in w.cols
    ensures Extracted(up.content, up.contentType, env.eng).Success?
    ensures var name := Initialize(up, userId, query, env, now, w).0.value.chatName;
      var text := Extracted(up.content, up.contentType, env.eng).value;
      Initialize(up, userId, query, env, now, w).1.cols == Embedded(w.cols, name, Some(text), env.split)
  {
  }

  /** An unreadable naming reply does not stop the request: the failure text
      becomes the chat's name and its collection's name. */
  lemma InitializePlaceholderName(up: Upload, userId: int, query: string, env: Env, now: int, w: World)
    requires Extracted(up.content, up.contentType, env.eng).Success?
    requires var reply := env.llm(ChatName.NamingRequest(Extracted(up.content, up.contentType, env.eng).value, query));
      reply.Replied? && FirstText(reply).None?
    requires Initialize(up, userId, query, env, now, w).0.Success?
    ensures Initialize(up, userId, query, env, now, w).0.value.chatName == ChatName.NamingFailure
    ensures ChatName.NamingFailure in Initialize(up, userId, query, env, now, w).1.cols
  {
  }

  /** A successful initialisation records one document, classified into the
      closed label set and typed by the gate, and one chat holding the answer. */
  lemma InitializeRecords(up: Upload, userId: int, query: string, env: Env, now: int, w: World)
    requires Initialize(up, userId, query, env, now, w).0.Success?
    ensures up.contentType in MimeTypeMap
    ensures var r := Initialize(up, userId, query, env, now, w);
      var doc := r.1.docs[|w.docs|];
      && r.1.docs == w.docs + [doc]
      && doc.category.Some? && doc.category.value in Category.ValidCategories
      && doc.doctype == MimeTypeMap[up.contentType]
      && doc.documentUrl == DocumentUrl(env.bucket, env.region, ObjectKey(up.fileId, up.filename))
      && doc.chatName == Some(r.0.value.chatName)
      && r.1.chats == w.chats + [ChatRow(r.0.value.chatName, query, r.0.value.initialResponse, now, userId)]
  {
  }

  // ---------------------------------------------------------------------------
  // chat

  const RequiredDetail: string := "chat_name and query are required."
  const ChatNotFoundDetail: string := "Chat not initialized or chat name not found."

  /** What `chat` answers, and the chats table it leaves. The answer is a
      string, and indexing it with 'result' raises: a saved exchange still
      ends in a 500. */
  function ChatOutcome(chatName: string, userId: int, query: string, env: Env, now: int,
                       cols: map<string, Collection>, chats: seq<ChatRow>): (r: (Result<string, HttpError>, seq<ChatRow>))
    ensures r.0.Failure?
    ensures r.1 == chats || |r.1| == |chats| + 1
    ensures r.1 != chats <==>
      chatName != "" && query != "" && chatName in cols && Llm.QueryLlm(cols, chatName, query, env.retrieve, env.llm).Success?
  {
    if chatName == "" || query == "" then (Failure(BadRequest(RequiredDetail)), chats)
    else if chatName !in cols then (Failure(NotFound(ChatNotFoundDetail)), chats)
    else match Llm.QueryLlm(cols, chatName, query, env.retrieve, env.llm)
      case Failure(_) => (Failure(ServerError), chats)
      case Success(response) => (Failure(ServerError), chats + [ChatRow(chatName, query, response, now, userId)])
  }

  /** `chat`: validate, check the collection, answer, save the exchange. */
  method Chat(chatName: string, userId: int, query: string, env: Env, now: int, store: Store, db: Db)
    returns (r: Result<string, HttpError>)
    requires store.Valid()
    modifies db
    ensures (r, db.chats) == ChatOutcome(chatName, userId, query, env, now, store.collections, old(db.chats))
    ensures db.documents == old(db.documents)
  {
    if chatName == "" || query == "" {
      return Failure(BadRequest(RequiredDetail));
    }
    var found := store.CollectionExists(chatName);
    if !found {
      return Failure(NotFound(ChatNotFoundDetail));
    }
    var response := Llm.QueryLlm(store.collections, chatName, query, env.retrieve, env.llm);
    if response.Failure? {
      return Failure(ServerError);
    }
    db.AddChat(ChatRow(chatName, query, response.value, now, userId));
    return Failure(ServerError);
  }

  /** The 400 and the 404 come before the model is asked: they do not depend
      on the services at all. */
  lemma ChatGatesBeforeModel(chatName: string, userId: int, query: string, env1: Env, env2: Env, now: int,
                             cols: map<string, Collection>, chats: seq<ChatRow>)
    requires chatName == "" || query == "" || chatName !in cols
    ensures ChatOutcome(chatName, userId, query, env1, now, cols, chats) == ChatOutcome(chatName, userId, query, env2, now, cols, chats)
    ensures ChatOutcome(chatName, userId, query, env1, now, cols, chats).1 == chats
    ensures ChatOutcome(chatName, userId, query, env1, now, cols, chats).0 ==
      if chatName == "" || query == "" then Failure(BadRequest(RequiredDetail)) else Failure(NotFound(ChatNotFoundDetail))
  {
  }

  /** A query the model does not answer ends in a 500 and saves nothing. */
  lemma ChatModelFailureSavesNothing(chatName: string, userId: int, query: string, env: Env, now: int,
                                     cols: map<string, Collection>, chats: seq<ChatRow>)
    requires chatName != "" && query != "" && chatName in cols
    requires Llm.QueryLlm(cols, chatName, query, env.retrieve, env.llm).Failure?
    ensures ChatOutcome(chatName, userId, query, env, now, cols, chats) == (Failure(ServerError), chats)
  {
  }

  /** An answered query is saved before the request fails. */
  lemma ChatSavesAnswer(chatName: string, userId: int, query: string, env: Env, now: int,
                        cols: map<string, Collection>, chats: seq<ChatRow>)
    requires chatName != "" && query != "" && chatName in cols
    requires Llm.QueryLlm(cols, chatName, query, env.retrieve, env.llm).Success?
    ensures ChatOutcome(chatName, userId, query, env, now, cols, chats) ==
      (Failure(ServerError), chats + [ChatRow(chatName, query, Llm.QueryLlm(cols, chatName, query, env.retrieve, env.llm).value, now, userId)])
  {
  }

  // ---------------------------------------------------------------------------
  // upload_files_to_chat

  const UploadedMessage: string := "Uploaded successfully"
  const CollectionNotFoundDetail: string := "Chat collection not found."

  datatype UploadedFile = UploadedFile(filename: string, url: string, message: string)
  datatype FileError = FileError(filename: string, error: string)
  datatype BatchReply = BatchReply(uploadedFiles: seq<UploadedFile>, errors: seq<FileError>)

  /** The outcome of one file of the batch: skipped with an error entry,
      stored, or aborting the whole request with a 500. */
  datatype Step = Skipped(error: FileError) | Stored(uploaded: UploadedFile) | Aborted

  /** One iteration of the loop of `upload_files_to_chat`. Every exception in
      its `try` escapes as a 500: the `except` clause names an exception class
      that endpoints/main.py never imports, so evaluating it raises. */
  function FileStep(f: Upload, chatName: string, userId: int, env: Env, now: int, w: World): (r: (Step, World))
    ensures DocTypeOf(f.contentType).None? <==> r.0.Skipped?
    ensures r.0.Skipped? ==> r == (Skipped(FileError(f.filename, UnsupportedDetail)), w)
    ensures r.0.Stored? ==> r.0.uploaded.filename == f.filename && |r.1.docs| == |w.docs| + 1
  {
    match DocTypeOf(f.contentType)
    case None => (Skipped(FileError(f.filename, UnsupportedDetail)), w)
    case Some(docType) =>
      var fileKey := ObjectKey(f.fileId, f.filename);
      if !env.s3Ok(fileKey) then (Aborted, w)
      else
        var docUrl := DocumentUrl(env.bucket, env.region, fileKey);
        var w1 := w.(files := FilesAfterExtraction(w.files, f, env.eng));
        match Classified(f, env)
        case None => (Aborted, w1)
        case Some(c) =>
          (Stored(UploadedFile(f.filename, docUrl, UploadedMessage)),
           w1.(cols := Embedded(w1.cols, chatName, Some(c.text), env.split),
               docs := w.docs + [DocumentRow(userId, Some(c.category), false, false, docUrl, Some(chatName), docType, None, now)]))
  }

  /** What one admitted file does. It is stored exactly when the upload reaches
      S3 and its text is extracted and classified; a stored file appends its
      document row and embeds its text into the chat's collection, and saves no
      chat. A file that aborts records no row and embeds nothing. */
  lemma StoredFileRecorded(f: Upload, chatName: string, userId: int, env: Env, now: int, w: World)
    ensures var r := FileStep(f, chatName, userId, env, now, w);
      r.0.Stored? <==> DocTypeOf(f.contentType).Some? && env.s3Ok(ObjectKey(f.fileId, f.filename)) && Classified(f, env).Some?
    ensures var r := FileStep(f, chatName, userId, env, now, w);
      r.0.Aborted? <==> DocTypeOf(f.contentType).Some? && (!env.s3Ok(ObjectKey(f.fileId, f.filename)) || Classified(f, env).None?)
    ensures var r := FileStep(f, chatName, userId, env, now, w);
      r.0.Stored? ==>
        var c := Classified(f, env).value;
        var docUrl := DocumentUrl(env.bucket, env.region, ObjectKey(f.fileId, f.filename));
        && r.0.uploaded == UploadedFile(f.filename, docUrl, UploadedMessage)
        && r.1.cols == Embedded(w.cols, chatName, Some(c.text), env.split)
        && r.1.docs == w.docs + [DocumentRow(userId, Some(c.category), false, false, docUrl, Some(chatName), DocTypeOf(f.contentType).value, None, now)]
        && r.1.chats == w.chats
    ensures var r := FileStep(f, chatName, userId, env, now, w);
      r.0.Aborted? ==> r.1.docs == w.docs && r.1.chats == w.chats && r.1.cols == w.cols
  {
  }

  /** The reply so far, with one more file's outcome recorded. */
  function Record(reply: BatchReply, step: (Step, World)): (r: (Result<BatchReply, HttpError>, World))
    ensures r.1 == step.1
    ensures step.0.Aborted? <==> r.0.Failure?
  {
    match step.0
    case Aborted => (Failure(ServerError), step.1)
    case Skipped(e) => (Success(reply.(errors := reply.errors + [e])), step.1)
    case Stored(u) => (Success(reply.(uploadedFiles := reply.uploadedFiles + [u])), step.1)
  }

  /** The files of the batch taken in order, stopping at the first that aborts. */
  function Batch(files: seq<Upload>, chatName: string, userId: int, env: Env, now: int, w: World): (r: (Result<BatchReply, HttpError>, World))
    ensures r.0.Failure? ==> r.0.error == ServerError
    decreases |files|
  {
    if files == [] then (Success(BatchReply([], [])), w)
    else
      var prev := Batch(files[..|files| - 1], chatName, userId, env, now, w);
      if prev.0.Failure? then prev
      else Record(prev.0.value, FileStep(files[|files| - 1], chatName, userId, env, now, prev.1))
  }

  /** What `upload_files_to_chat` answers, and the state it leaves. */
  function UploadToChat(chatName: string, userId: int, files: seq<Upload>, env: Env, now: int, w: World)
    : (r: (Result<BatchReply, HttpError>, World))
    ensures chatName !in w.cols ==> r == (Failure(NotFound(CollectionNotFoundDetail)), w)
  {
    if chatName !in w.cols then (Failure(NotFound(CollectionNotFoundDetail)), w)
    else Batch(files, chatName, userId, env, now, w)
  }

  /** Once a prefix of the batch has aborted, the later files change nothing. */
  lemma {:induction false} BatchAbortSticks(files: seq<Upload>, k: nat, chatName: string, userId: int, env: Env, now: int, w: World)
    requires k <= |files|
    requires Batch(files[..k], chatName, userId, env, now, w).0.Failure?
    ensures Batch(files, chatName, userId, env, now, w) == Batch(files[..k], chatName, userId, env, now, w)
    decreases |files| - k
  {
    if k < |files| {
      assert files[..k + 1][..k] == files[..k];
      BatchAbortSticks(files, k + 1, chatName, userId, env, now, w);
    } else {
      assert files[..k] == files;
    }
  }

  /** The batch grows by one file at a time. */
  lemma BatchNext(files: seq<Upload>, i: nat, chatName: string, userId: int, env: Env, now: int, w: World)
    requires i < |files|
    requires Batch(files[..i], chatName, userId, env, now, w).0.Success?
    ensures var prev := Batch(files[..i], chatName, userId, env, now, w);
      Batch(files[..i + 1], chatName, userId, env, now, w) ==
      Record(prev.0.value, FileStep(files[i], chatName, userId, env, now, prev.1))
  {
    assert files[..i + 1][..i] == files[..i];
    assert files[..i + 1][i] == files[i];
  }

  /** One iteration of the loop of `upload_files_to_chat`. */
  method ProcessOne(f: Upload, chatName: string, userId: int, env: Env, now: int, store: Store, disk: Disk, db: Db)
    returns (step: Step)
    requires store.Valid() && chatName in store.collections
    modifies store, disk, db
    ensures store.Valid() && chatName in store.collections
    ensures (step, WorldOf(store, disk, db)) == FileStep(f, chatName, userId, env, now, old(WorldOf(store, disk, db)))
  {
    var docType := DocTypeOf(f.contentType);
    if docType.None? {
      return Skipped(FileError(f.filename, UnsupportedDetail));
    }
    var fileKey := ObjectKey(f.fileId, f.filename);
    if !env.s3Ok(fileKey) {
      return Aborted;
    }
    var docUrl := DocumentUrl(env.bucket, env.region, fileKey);
    var classified := ExtractAndClassify(f, env, disk);
    if classified.None? {
      return Aborted;
    }
    store.HandleChatEmbeddings(chatName, Some(classified.value.text), env.split);
    db.AddDocument(DocumentRow(userId, Some(classified.value.category), false, false, docUrl, Some(chatName), docType.value, None, now));
    return Stored(UploadedFile(f.filename, docUrl, UploadedMessage));
  }

  /** One iteration of the loop, with its outcome recorded in the reply so far. */
  method RecordOne(reply: BatchReply, f: Upload, chatName: string, userId: int, env: Env, now: int, store: Store, disk: Disk, db: Db)
    returns (r: Result<BatchReply, HttpError>)
    requires store.Valid() && chatName in store.collections
    modifies store, disk, db
    ensures store.Valid() && chatName in store.collections
    ensures (r, WorldOf(store, disk, db)) == Record(reply, FileStep(f, chatName, userId, env, now, old(WorldOf(store, disk, db))))
  {
    var step := ProcessOne(f, chatName, userId, env, now, store, disk, db);
    match step {
      case Aborted => r := Failure(ServerError);
      case Skipped(e) => r := Success(reply.(errors := reply.errors + [e]));
      case Stored(u) => r := Success(reply.(uploadedFiles := reply.uploadedFiles + [u]));
    }
  }

  /** One more file of the batch: from the batch over the first `i` files to
      the batch over the first `i + 1`. */
  method BatchStep(files: seq<Upload>, i: nat, reply: BatchReply, chatName: string, userId: int, env: Env, now: int,
                   ghost w0: World, store: Store, disk: Disk, db: Db)
    returns (r: Result<BatchReply, HttpError>)
    requires i < |files|
    requires store.Valid() && chatName in store.collections
    requires (Success(reply), WorldOf(store, disk, db)) == Batch(files[..i], chatName, userId, env, now, w0)
    modifies store, disk, db
    ensures store.Valid() && chatName in store.collections
    ensures (r, WorldOf(store, disk, db)) == Batch(files[..i + 1], chatName, userId, env, now, w0)
  {
    BatchNext(files, i, chatName, userId, env, now, w0);
    r := RecordOne(reply, files[i], chatName, userId, env, now, store, disk, db);
  }

  /** The loop of `upload_files_to_chat`: each file in turn, skipping
      unsupported ones, until one aborts the request. */
  method RunBatch(chatName: string, userId: int, files: seq<Upload>, env: Env, now: int, store: Store, disk: Disk, db: Db)
    returns (r: Result<BatchReply, HttpError>)
    requires store.Valid() && chatName in store.collections
    modifies store, disk, db
    ensures store.Valid()
    ensures (r, WorldOf(store, disk, db)) == Batch(files, chatName, userId, env, now, old(WorldOf(store, disk, db)))
  {
    ghost var w0 := WorldOf(store, disk, db);
    var reply := BatchReply([], []);
    var i := 0;
    while i < |files|
      invariant 0 <= i <= |files|
      invariant store.Valid() && chatName in store.collections
      invariant (Success(reply), WorldOf(store, disk, db)) == Batch(files[..i], chatName, userId, env, now, w0)
    {
      var next := BatchStep(files, i, reply, chatName, userId, env, now, w0, store, disk, db);
      if next.Failure? {
        BatchAbortSticks(files, i + 1, chatName, userId, env, now, w0);
        return next;
      }
      reply := next.value;
      i := i + 1;
    }
    assert files[..i] == files;
    return Success(reply);
  }

  /** `upload_files_to_chat`: 404 before any file when the collection is
      missing, then the batch. */
  method UploadFilesToChat(chatName: string, userId: int, files: seq<Upload>, env: Env, now: int, store: Store, disk: Disk, db: Db)
    returns (r: Result<BatchReply, HttpError>)
    requires store.Valid()
    modifies store, disk, db
    ensures store.Valid()
    ensures (r, WorldOf(store, disk, db)) == UploadToChat(chatName, userId, files, env, now, old(WorldOf(store, disk, db)))
  {
    var found := store.CollectionExists(chatName);
    if !found {
      return Failure(NotFound(CollectionNotFoundDetail));
    }
    r := RunBatch(chatName, userId, files, env, now, store, disk, db);
  }

  // ---------------------------------------------------------------------------
  // Properties of the batch

  /** The error entries of the files the gate rejects, in batch order. */
  function UnsupportedErrors(files: seq<Upload>): (r: seq<FileError>)
    ensures |r| <= |files|
    ensures forall k :: 0 <= k < |r| ==> r[k].error == UnsupportedDetail
    ensures (forall i :: 0 <= i < |files| ==> files[i].contentType in MimeTypeMap) ==> r == []
    decreases |files|
  {
    if files == [] then []
    else
      var last := files[|files| - 1];
      UnsupportedErrors(files[..|files| - 1]) +
        if DocTypeOf(last.contentType).None? then [FileError(last.filename, UnsupportedDetail)] else []
  }

  /** The names of the files the gate admits, in batch order. */
  function AdmittedNames(files: seq<Upload>): (r: seq<string>)
    ensures |r| + |UnsupportedErrors(files)| == |files|
    decreases |files|
  {
    if files == [] then []
    else
      var last := files[|files| - 1];
      AdmittedNames(files[..|files| - 1]) + if DocTypeOf(last.contentType).Some? then [last.filename] else []
  }

  /** The file names of the uploaded entries, in order. */
  function Filenames(uploaded: seq<UploadedFile>): (r: seq<string>)
    ensures |r| == |uploaded|
    decreases |uploaded|
  {
    if uploaded == [] then [] else Filenames(uploaded[..|uploaded| - 1]) + [uploaded[|uploaded| - 1].filename]
  }

  /** A batch that does not abort reports every unsupported file as an error,
      in order, and every other file as uploaded, in order. */
  lemma {:induction false} BatchReport(files: seq<Upload>, chatName: string, userId: int, env: Env, now: int, w: World)
    requires Batch(files, chatName, userId, env, now, w).0.Success?
    ensures Batch(files, chatName, userId, env, now, w).0.value.errors == UnsupportedErrors(files)
    ensures Filenames(Batch(files, chatName, userId, env, now, w).0.value.uploadedFiles) == AdmittedNames(files)
    decreases |files|
  {
    if files != [] {
      var init := files[..|files| - 1];
      BatchReport(init, chatName, userId, env, now, w);
      var prev := Batch(init, chatName, userId, env, now, w).0.value;
      var step := FileStep(files[|files| - 1], chatName, userId, env, now, Batch(init, chatName, userId, env, now, w).1);
      if step.0.Stored? {
        var u := step.0.uploaded;
        assert (prev.uploadedFiles + [u])[..|prev.uploadedFiles|] == prev.uploadedFiles;
      }
    }
  }

  /** Within one batch, a "text/plain" file that is stored aborts the request
      with a 500 once the files before it went through. */
  lemma BatchPlainTextAborts(files: seq<Upload>, k: nat, chatName: string, userId: int, env: Env, now: int, w: World)
    requires k < |files| && files[k].contentType == TextPlain
    requires env.s3Ok(ObjectKey(files[k].fileId, files[k].filename))
    requires Batch(files[..k], chatName, userId, env, now, w).0.Success?
    ensures Batch(files, chatName, userId, env, now, w).0 == Failure(ServerError)
  {
    GateExtractionMismatch(TextPlain);
    assert files[..k + 1][..k] == files[..k];
    BatchAbortSticks(files, k + 1, chatName, userId, env, now, w);
  }

  /** `after` holds the collections of `before`, the chat `name`'s with texts
      appended at its end, every other one unchanged. */
  predicate OnlyAppended(before: map<string, Collection>, after: map<string, Collection>, name: string) {
    && name in before
    && after.Keys == before.Keys
    && before[name].texts <= after[name].texts
    && after[name].params == before[name].params
    && (forall n :: n in before && n != name ==> after[n] == before[n])
  }

  lemma OnlyAppendedTransitive(a: map<string, Collection>, b: map<string, Collection>, c: map<string, Collection>, name: string)
    requires OnlyAppended(a, b, name) && OnlyAppended(b, c, name)
    ensures OnlyAppended(a, c, name)
  {
  }

  /** One file of the batch only appends to the chat's collection. */
  lemma StepOnlyAppends(f: Upload, chatName: string, userId: int, env: Env, now: int, w: World)
    requires chatName in w.cols
    ensures OnlyAppended(w.cols, FileStep(f, chatName, userId, env, now, w).1.cols, chatName)
  {
  }

  /** The batch only appends to the chat's collection and leaves every other
      collection as it was. */
  lemma {:induction false} BatchAppendOnly(files: seq<Upload>, chatName: string, userId: int, env: Env, now: int, w: World)
    requires chatName in w.cols
    ensures OnlyAppended(w.cols, Batch(files, chatName, userId, env, now, w).1.cols, chatName)
    decreases |files|
  {
    if files != [] {
      var init := files[..|files| - 1];
      BatchAppendOnly(init, chatName, userId, env, now, w);
      var prev := Batch(init, chatName, userId, env, now, w);
      if prev.0.Success? {
        StepOnlyAppends(files[|files| - 1], chatName, userId, env, now, prev.1);
        OnlyAppendedTransitive(w.cols, prev.1.cols, Batch(files, chatName, userId, env, now, w).1.cols, chatName);
      }
    }
  }
}
