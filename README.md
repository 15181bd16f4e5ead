# Document ingestion and chat backend, modelled in Dafny

This project models the deterministic core of a document-management backend
with retrieval-augmented chat. Users upload documents (PDF, Word, images).
The backend extracts their text by OCR, classifies each one into a closed set
of labels, names a chat after the first document and query, and stores the
document's chunks in a vector collection named after the chat. Queries are
answered from the texts retrieved from that collection. The model also covers
the read-only endpoints with logic of their own: per-folder counts, filename
search and the merged chat history.

The external services are function-typed parameters, so the model says what is
sent to them and what they may answer, never how they compute it. These
services are OCR, PDF rendering, Word conversion, the text-generation model,
the retriever, the text splitter and S3. The failures of OCR, rendering,
conversion, the text-generation model and S3 become `Result` and `Option`
values. The retriever and the splitter return plain sequences and cannot fail,
and the vector store (the Qdrant client and the embeddings behind it) is a
concrete map that cannot fail; the `VectorStore.Store.HandleChatEmbeddings`
line under "Left out" says what that leaves unmodelled. An exception an
endpoint does not turn into an HTTP error itself becomes a 500
(`ServerError`).

Modules, one per source file or concern:

- `Wrappers` (`wrappers.dfy`): `Option` and `Result`.
- `TextOps` (`text.dfy`): Python's `strip`, `lower`, `split(d)[0]`,
  `split(d)[-1]` and `join`, with their properties.
- `Collaborators` (`collaborators.dfy`): model requests and replies, and
  `result.content[0].text`.
- `Category` (`category.dfy`), for `rag/category.py`.
- `Extraction` (`extraction.dfy`), for `ocr/run.py`. It includes a `Disk`
  class for the temporary files.
- `VectorStore` (`vector_store.dfy`), for `rag/qdrant_utils.py` and
  `rag/embeddings.py`. A `Store` class holds the listed collection names and a
  map from name to collection.
- `Llm` (`llm.dfy`), for `rag/llm.py`.
- `ChatName` (`chat_name.dfy`), for `rag/chatname.py`.
- `Records` (`records.dfy`): the rows, the HTTP errors, and the S3 object key
  and URL of `endpoints/main.py`.
- `Endpoints` (`endpoints.dfy`): the upload gate, `upload_and_initialize`,
  `chat` and `upload_files_to_chat`. A `Db` class holds the two tables.
- `Listings` (`listings.dfy`): `get_user_folders`, `search_documents` and
  `get_chats_by_chatname`.

Code that changes state step by step is written as methods. These are the
loops, the store, the disk and the tables. Each method is proved equal to a
specification function of its inputs and old state. For the endpoints that
state is a `World` value. The properties are proved as lemmas about those
functions.

Behaviours of the code that the model keeps as they are:

- `rag/category.py` lets both the failure of the model call and an unreadable
  reply escape. `Category.ClassifyDocumentContent` returns them as failures,
  and the endpoints answer 500.
- The naming placeholder "Error: Unable to generate chat name." is used
  unchecked as a chat and collection name, and a failure of the naming call
  itself propagates.
- The upload gate admits `text/plain`, which `process_file` then rejects.
- The Word path writes to the fixed paths `/tmp/temp_file.docx` and
  `output.pdf` and never removes them.
- A collection is created by checking that it is absent and then creating it,
  in two separate calls.
- `main.py` catches `ClientError` but never imports it. Evaluating that
  `except` clause raises `NameError`. Any exception inside those `try` blocks
  is therefore a 500, and in `upload_files_to_chat` it aborts the whole batch.
  The per-file entry "File upload failed due to server error" cannot be
  produced.
- `chat` indexes the returned string with `'result'`, which raises. Once the
  exchange has been saved, the request ends in a 500.

## Model

| member | source | states |
|---|---|---|
| TextOps.Lower | rag/category.py:18 | lower-casing keeps the length |
| TextOps.LowerCases | rag/category.py:18 | no upper-case letter is left: each becomes its lower-case form, and every other character is kept |
| TextOps.Join | ocr/run.py:17 | joining no parts gives "", and joining one part gives that part |
| TextOps.Strip | rag/category.py:16 | the result has no leading or trailing whitespace and is no longer than the input |
| TextOps.StripPadded | rag/chatname.py:54 | whitespace around a stripped non-empty text is removed exactly |
| TextOps.BeforeFirst | endpoints/main.py:358 | `split(d)[0]` is a prefix of the input, ending just before the first `d` when there is one |
| TextOps.BeforeFirstHasNo | rag/category.py:16 | the part before the first `d` holds no `d` |
| TextOps.BeforeFirstAt | endpoints/main.py:358 | for `a + d + b` with no `d` in `a`, the part before the first `d` is `a` |
| TextOps.AfterLast | endpoints/main.py:357 | `split(d)[-1]` is at most as long as the input and is preceded by a `d` when it is shorter |
| TextOps.AfterLastHasNo | endpoints/main.py:357 | the part after the last `d` holds no `d` |
| TextOps.AfterLastSuffix | endpoints/main.py:357 | the part after the last `d` is a suffix of the input |
| TextOps.AfterLastAt | endpoints/main.py:358 | for `a + d + b` with no `d` in `b`, the part after the last `d` is `b` |
| TextOps.JoinLength | ocr/run.py:17 | joining no parts gives ""; joining n > 0 parts adds exactly n - 1 separators |
| TextOps.JoinPartAt | rag/llm.py:14 | part `i` of a join stands after the parts before it and their separators, and is followed by the separator unless it is the last |
| Collaborators.FirstText | rag/category.py:38 | `content[0].text` is read exactly when the call returned a first block that is text, and is that block's text |
| Category.Cleaned | rag/category.py:16 | the label candidate holds no '.' and is stripped |
| Category.FirstMatch | rag/category.py:17-19 | a found label is in the list and equals the key up to case; none is found exactly when no label equals the key up to case |
| Category.Normalized | rag/category.py:13-20 | the result is always one of the eight labels |
| Category.CleanAndValidateResponse | rag/category.py:13-20 | returns the normalised label of the reply |
| Category.FindLabel | rag/category.py:17-19 | the loop with early return finds the first label equal to the cleaned text up to case |
| Category.ClassifierPrompt | rag/category.py:23-29 | the prompt is the fixed instructions, then the document text, then the fixed cue |
| Category.ClassifyDocumentContent | rag/category.py:22-38 | succeeds exactly when the first reply block has text, and then returns the normalisation of that text, always a valid label; a failed call escapes |
| Category.LabelsDistinctUpToCase | rag/category.py:9-11 | no two labels are equal up to case |
| Category.NormalizedEmpty | rag/category.py:14-15 | a missing or empty reply gives "Others" |
| Category.NormalizedCanonical | rag/category.py:16-19 | a reply whose cleaned text equals a label up to case gives that label in its canonical spelling |
| Category.NormalizedUnmatched | rag/category.py:17-20 | a reply whose cleaned text matches no label gives "Others" |
| Category.LabelsAreWords | rag/category.py:9-11 | every label is a non-empty word of ASCII letters |
| Category.CleanedWord | rag/category.py:16 | a word of letters is its own cleaned text |
| Category.NormalizedIdempotent | rag/category.py:16-19 | normalising a normalised label returns it unchanged |
| Category.FirstMatchUpToCase | rag/category.py:17-19 | keys equal up to case find the same label |
| Category.NormalizedCaseInsensitive | rag/category.py:16-19 | replies whose cleaned texts agree up to case get the same label |
| Category.StripThenCut | rag/category.py:16 | stripping and cutting at the first '.' leaves the text before the '.' without its leading whitespace |
| Category.CleanedNoDot | rag/category.py:16 | without a '.', cleaning is stripping |
| Category.CleanedFirstSentence | rag/category.py:16 | only the text before the first '.' counts |
| Category.NormalizedFirstSentence | rag/category.py:16-19 | "Label. more text" is classified by "Label" alone |
| Category.NormalizedPadded | rag/category.py:16-19 | surrounding whitespace and case do not matter (" insurance " gives "Insurance") |
| Category.NormalizedInnerSpace | rag/category.py:16-20 | a cleaned reply with whitespace inside it gives "Others" |
| Category.CleanedWordThenWords | rag/category.py:16 | a word, a space and a stripped text without '.' is its own cleaned text |
| Category.NormalizedLabelThenWords | rag/category.py:17-20 | a label followed by more words ("Insurance document") gives "Others" |
| Extraction.HandlerFor | ocr/run.py:37-46 | PDF goes to the PDF handler, the two Word types to the Word handler, JPEG and PNG to the image handler, and every other type to none |
| Extraction.OcrPages | ocr/run.py:11-16 | succeeds exactly when every image is read, and then holds each image's text at its index |
| Extraction.HandleImage | ocr/run.py:32-35 | one OCR call: its text when the image is read, the unreadable-image error otherwise |
| Extraction.Disk.Write | ocr/run.py:21-22 | writing a file replaces that path's contents and nothing else |
| Extraction.ExtractTextWithPytesseract | ocr/run.py:11-17 | the OCR loop returns the page texts joined by "\n", or fails when any page cannot be read |
| Extraction.NoneExtends | ocr/run.py:13-16 | once a page fails, the whole extraction fails whatever follows |
| Extraction.ConvertWordToPdf | ocr/run.py:7-9 | a successful conversion writes the PDF to the output path and returns that path; a failed one writes nothing |
| Extraction.HandlePdf | ocr/run.py:28-30 | render, then OCR the pages |
| Extraction.HandleDocx | ocr/run.py:19-26 | writes the upload to the fixed temporary path, converts it to the fixed PDF path, then reads that PDF like an uploaded one |
| Extraction.ProcessFile | ocr/run.py:37-46 | dispatches on the content type; only the Word path touches the disk |
| Extraction.ImagesTextSucceeds | ocr/run.py:11-17 | extraction of page images succeeds exactly when every page is read |
| Extraction.ImagesTextPageAt | ocr/run.py:11-17 | the extracted text holds page `i`'s OCR text after the pages before it and one "\n" per earlier page, so page order is kept |
| Extraction.PageAtJoin | ocr/run.py:17 | in the "\n"-join of the pages, page `i` stands at its offset and is followed by "\n" unless it is the last |
| Extraction.ImagesTextLength | ocr/run.py:17 | no images give ""; n > 0 images give their texts plus exactly n - 1 separators |
| Extraction.ImagesTextAllOrNothing | ocr/run.py:13-17 | one unreadable page fails the extraction, with no partial text |
| Extraction.ImageIsOnePage | ocr/run.py:32-35 | an image upload is read by one OCR call, with nothing joined |
| Extraction.WordIsConvertedPdf | ocr/run.py:19-30 | a Word upload is read exactly like the PDF it converts to |
| Extraction.UnsupportedRejected | ocr/run.py:45-46 | every other content type, "text/plain" included, fails with the unsupported-type error |
| VectorStore.Store.CollectionExists | rag/qdrant_utils.py:23-28 | the scan is true exactly when some listed name equals the chat name, and changes nothing |
| VectorStore.Store.CreateCollection | rag/qdrant_utils.py:14-19 | adds an empty collection of 384-dimensional cosine vectors under the new name and changes no other collection |
| VectorStore.NewChunks | rag/embeddings.py:24-31 | no chunks for a missing or empty document, otherwise the splitter's chunks, with separator "\n", size 1000, overlap 200 |
| VectorStore.Embedded | rag/embeddings.py:12-38 | the chat's collection exists afterwards; an existing one keeps its settings and gets the new chunks appended; a new one has the chat settings and just the new chunks; others are unchanged |
| VectorStore.Store.AddText | rag/embeddings.py:34 | one `add_texts([chunk])` appends one text to the chat's collection |
| VectorStore.Store.AddTexts | rag/embeddings.py:33-34 | the loop appends every chunk, in order, and changes nothing else |
| VectorStore.Store.HandleChatEmbeddings | rag/embeddings.py:12-38 | check, then create only if missing, then append; the new store is `Embedded` of the old one |
| VectorStore.EmbeddedCollectionExists | rag/embeddings.py:15-21 | afterwards the collection exists; it has the chat settings if it was created, its old settings otherwise |
| VectorStore.EmbeddedAppendOnly | rag/embeddings.py:31-34 | earlier texts stay a prefix and other collections are untouched |
| VectorStore.EmbeddedNothingToAdd | rag/embeddings.py:24 | a missing or empty document adds no text, though the collection may be created |
| VectorStore.ReingestDuplicates | rag/embeddings.py:33-34 | ingesting the same text twice stores its chunks twice |
| VectorStore.EmbeddedInOrder | rag/embeddings.py:24-34 | two ingestions append both documents' chunks in call order |
| Llm.AnswerPrompt | rag/llm.py:15-22 | the prompt is the preamble, "Context:\n", the context, "\n\nUser Query: ", the query and "\n\nAnswer:" |
| Llm.Context | rag/llm.py:14 | no retrieved texts give an empty context; otherwise its length is the texts' plus one blank line between each two |
| Llm.QueryLlm | rag/llm.py:9-31 | a missing collection or a failed call fails; otherwise the result is the first reply block's text, stripped |
| Llm.ClassifyPrompt | rag/llm.py:35-40 | this file's classification prompt frames the document text with fixed instructions and cue |
| Llm.ClassifyDocumentContent | rag/llm.py:33-51 | None exactly when the reply has no readable text (a failed call included), otherwise the stripped text, unvalidated |
| Llm.PreambleQuotesRefusal | rag/llm.py:16-18 | the preamble quotes the refusal sentence verbatim |
| Llm.ContextKeepsRank | rag/llm.py:14 | retrieved text `k` stands after the texts ranked above it, each followed by a blank line |
| Llm.NothingRetrievedStillAsks | rag/llm.py:12-24 | with nothing retrieved the context is empty, and the prompt is still sent and its answer returned |
| Llm.AnswerPromptInjective | rag/llm.py:15-22 | prompts with contexts of one length are equal exactly when their contexts and queries are |
| Llm.ClassifyNotValidated | rag/llm.py:48 | any stripped reply text is returned as it is |
| Llm.ClassifyFailureIsNone | rag/llm.py:49-51 | a failed call or an empty reply gives None |
| ChatName.ChatNamePrompt | rag/chatname.py:36-42 | the prompt holds the instructions, then the document content, then the query, and ends with "\n\nChat Name:" |
| ChatName.CreateChatName | rag/chatname.py:35-58 | a failed call escapes; an unreadable reply gives the literal failure text; otherwise the first block's text, stripped |
| ChatName.AnyReadableReplyIsAName | rag/chatname.py:54-55 | the one-to-three-word limit is not checked: any readable reply comes back stripped |
| ChatName.UnreadableReplyNamesFailure | rag/chatname.py:53-58 | an empty reply or a first block without text gives "Error: Unable to generate chat name." |
| ChatName.NamesAreStripped | rag/chatname.py:53-58 | every name returned is stripped |
| Records.ObjectKey | endpoints/main.py:653 | the object key is "documents/", the file id, '_' and the filename |
| Records.DocumentUrl | endpoints/main.py:674 | the public URL is `https://<bucket>.s3.<region>.amazonaws.com/` followed by the object key |
| Records.StoredUrl | endpoints/main.py:674 | a stored upload's URL is the folder's URL, '/', then `{file_id}_{filename}` |
| Records.FileKey | endpoints/main.py:357-358 | the search key is no longer than the URL; what it holds is stated by the two lemmas below |
| Records.FileKeyHasNoSeparators | endpoints/main.py:357-358 | the search key holds no '/', '_' or '.' |
| Records.FileKeyOfStoredUpload | endpoints/main.py:357-358 | the search key of an upload named `stem.ext` is `stem` |
| Records.FileKeyAfterUnderscore | endpoints/main.py:358 | a filename with a '_' is searched by its part after the last '_' |
| Endpoints.DocTypeOf | endpoints/main.py:52-59 | the gate admits exactly the map's keys, each with a non-empty document type |
| Endpoints.GateKeys | endpoints/main.py:52-59 | the gate admits the five extractable types and "text/plain" |
| Endpoints.GateExtractionMismatch | endpoints/main.py:56 | "text/plain" is the one type the gate admits and extraction rejects |
| Endpoints.Db.AddDocument | endpoints/main.py:696-698 | appends one document row and leaves the chats |
| Endpoints.Db.AddChat | endpoints/main.py:603-605 | appends one chat row and leaves the documents |
| Endpoints.Classified | endpoints/main.py:569-570 | a classification holds the extracted text and its valid label; a failed extraction gives none |
| Endpoints.ExtractAndClassify | endpoints/main.py:569-570 | extracts and classifies an upload; only the Word path writes local files |
| Endpoints.InitCollections | endpoints/main.py:574-575 | an existing chat name leaves the collections as they were; a new one is embedded with the document |
| Endpoints.Conclude | endpoints/main.py:574-606 | after naming: embed if new; succeed exactly when the query is answered from the chat's collection as set up, with that answer as the initial response; record the document and the exchange; a failed answer records nothing |
| Endpoints.Initialize | endpoints/main.py:542-606 | an ungated type gives 400 with nothing changed; a failure records no row; success records one document and one chat |
| Endpoints.InitializeSucceeds | endpoints/main.py:542-606 | succeeds exactly when the gate admits the type, the upload is stored, its text is extracted and classified, the chat is named and the query is answered; the reply is the name and that answer |
| Endpoints.UploadAndInitialize | endpoints/main.py:542-606 | the endpoint's answer and new state are those of `Initialize` |
| Endpoints.AnswerAndRecord | endpoints/main.py:574-606 | the end of the endpoint's answer and new state are those of `Conclude` |
| Endpoints.InitializePlainText | endpoints/main.py:548-569 | a "text/plain" upload passes the gate, then fails extraction with a 500 and records nothing |
| Endpoints.InitializeExistingNameNotEmbedded | endpoints/main.py:574-577 | when the generated name already exists, the new document is not embedded and the answer comes from the collection as it was |
| Endpoints.InitializeNewNameEmbedded | endpoints/main.py:574-575 | a new name gets a collection holding the document's chunks |
| Endpoints.InitializePlaceholderName | endpoints/main.py:572-575 | an unreadable naming reply makes the failure text the chat's name and a collection's name |
| Endpoints.InitializeRecords | endpoints/main.py:580-605 | success records one document with a valid label, the gate's type, the upload's URL and the chat name, and one chat row with the answer |
| Endpoints.ChatOutcome | endpoints/main.py:610-634 | `chat` never succeeds; it saves one row exactly when both fields are given, the collection exists and the query is answered, and nothing otherwise |
| Endpoints.Chat | endpoints/main.py:610-634 | the endpoint's answer and chats table are those of `ChatOutcome`, and the documents are untouched |
| Endpoints.ChatGatesBeforeModel | endpoints/main.py:615-623 | an empty name or query gives 400 and a missing collection gives 404, whatever the services do and with nothing saved |
| Endpoints.ChatModelFailureSavesNothing | endpoints/main.py:623-634 | a query the model does not answer gives a 500 and saves nothing |
| Endpoints.ChatSavesAnswer | endpoints/main.py:623-634 | an answered query is saved, then the request fails with a 500 |
| Endpoints.FileStep | endpoints/main.py:650-710 | an ungated file is skipped with the unsupported-type error and nothing changed; a stored file adds one document row |
| Endpoints.StoredFileRecorded | endpoints/main.py:650-710 | an admitted file is stored exactly when it reaches S3 and is extracted and classified, and aborts otherwise; a stored file appends its exact document row, embeds its text into the chat's collection and saves no chat; an aborting file records and embeds nothing |
| Endpoints.Record | endpoints/main.py:700-710 | only an aborting file ends the reply in a failure |
| Endpoints.Batch | endpoints/main.py:650-715 | the files taken in order fail only with a 500 |
| Endpoints.UploadToChat | endpoints/main.py:644-645 | a missing collection gives 404 before any file, with nothing changed |
| Endpoints.BatchAbortSticks | endpoints/main.py:661-710 | once a file aborts, the later files change nothing |
| Endpoints.BatchNext | endpoints/main.py:650 | the batch grows by one file's step at a time |
| Endpoints.ProcessOne | endpoints/main.py:650-710 | the loop body's outcome and new state are those of `FileStep` |
| Endpoints.RecordOne | endpoints/main.py:650-710 | the loop body's reply and new state are those of `Record` of `FileStep` |
| Endpoints.RunBatch | endpoints/main.py:650-715 | the loop's reply and new state are those of `Batch` |
| Endpoints.UploadFilesToChat | endpoints/main.py:637-715 | the endpoint's reply and new state are those of `UploadToChat` |
| Endpoints.UnsupportedErrors | endpoints/main.py:657-659 | every entry carries the unsupported-type message, there are at most as many as files, and none when every type passes the gate |
| Endpoints.AdmittedNames | endpoints/main.py:700-704 | the admitted names and the error entries together account for every file exactly once |
| Endpoints.Filenames | endpoints/main.py:700-704 | one name per uploaded entry |
| Endpoints.BatchReport | endpoints/main.py:650-715 | a batch that does not abort reports every ungated file as an error and every other file as uploaded, each in order |
| Endpoints.BatchPlainTextAborts | endpoints/main.py:657-677 | a stored "text/plain" file aborts the request with a 500 |
| Endpoints.StepOnlyAppends | endpoints/main.py:681 | one file only appends to the chat's collection |
| Endpoints.BatchAppendOnly | endpoints/main.py:650-681 | the batch only appends to the chat's collection and leaves the others as they were |
| Listings.Entries | endpoints/main.py:308-315 | one entry per folder, in the given order |
| Listings.GetUserFolders | endpoints/main.py:287-317 | the counting loop over the rows answers the folders in first-appearance order, with their counts and first timestamps, or 404 for no rows |
| Listings.FoldersDistinct | endpoints/main.py:298-305 | each folder is listed once |
| Listings.FoldersListed | endpoints/main.py:300-305 | a folder is listed exactly when some row names it with a non-empty name, and then its count is positive |
| Listings.FirstTimestampIsFirst | endpoints/main.py:305 | the timestamp kept is that of the first row naming the folder |
| Listings.CountOfAppend | endpoints/main.py:303 | counts add up over consecutive batches of rows |
| Listings.FoldersAppend | endpoints/main.py:304-305 | more rows only add folders at the end |
| Listings.NoFolderIsEmptyList | endpoints/main.py:294-295 | only a user without rows gets the 404; rows in no folder give an empty list |
| Listings.MatchingMembers | endpoints/main.py:356-363 | the matches are exactly the rows whose key equals the name up to case |
| Listings.MatchingNext | endpoints/main.py:356-363 | the scan meets the rows one at a time |
| Listings.MatchingStep | endpoints/main.py:360-363 | one step of the scan, with the row's test decided |
| Listings.MatchingSingle | endpoints/main.py:360-363 | a single matching row is found |
| Listings.SearchDocuments | endpoints/main.py:347-368 | the loop keeps the matching rows in query order, or answers 404 when none matches |
| Listings.MatchingAppend | endpoints/main.py:355-363 | the matches of two batches of rows are those of the first followed by those of the second |
| Listings.UploadFoundByStem | endpoints/main.py:356-360 | a document uploaded as `stem.ext` is found by searching for `stem` in any case |
| Listings.InsertPermutes | endpoints/main.py:765-768 | insertion adds the item and loses nothing |
| Listings.InsertSorted | endpoints/main.py:765-768 | inserting into a sorted list keeps it sorted |
| Listings.SortByKey | endpoints/main.py:765-768 | the sort is sorted by (timestamp, documents first) and a permutation of its input |
| Listings.InsertWithKey | endpoints/main.py:765-768 | insertion puts the item before every item of the list that has its key |
| Listings.SortStable | endpoints/main.py:765-768 | the sort is stable: items with equal keys keep their order |
| Listings.DocumentItems | endpoints/main.py:747-753 | one document item per document row, with its timestamp |
| Listings.ChatItems | endpoints/main.py:756-762 | one chat item per chat row, with its timestamp |
| Listings.ChatHistory | endpoints/main.py:724-773 | no chats and no documents give a 500 (the 404 is caught and re-raised); otherwise the items are sorted and a permutation of documents followed by chats |
| Listings.HistoryDocumentsFirst | endpoints/main.py:767 | on equal timestamps documents come before chats |
| Listings.HistoryKeepsQueryOrder | endpoints/main.py:765-768 | documents with one timestamp keep their query order, and so do chats |

## Left out

- Authentication (`signup`, `login`, password hashing), `upload_files` and `upload_folder`, and the single-query endpoints. These are mark-important, move-trash, the category, folder, important and trash lookups, `get_documents_by_timestamp`, `get_user_chats` and `delete_chat`. They are database or S3 calls with no logic of their own.
- S3 and the database: storing an upload is the single boolean `s3Ok(key)`. The database is the two appended tables; commit and refresh, and the query filters and their ordering, are not modelled. The rows the queries return are inputs, in the order returned.
- The services themselves (Tesseract OCR, pypandoc, PDF rendering in `ocr/pdf_image.py`, HuggingFace embeddings, the Anthropic model, the Qdrant retriever and its `k`) are uninterpreted function parameters. Embedding vectors are not modelled; a collection holds its texts.
- `CharacterTextSplitter`: its algorithm is not part of this model. The splitter is an uninterpreted function of its settings and the text, so no chunk-count or boundary formula is stated.
- `rag/chain.py` is not part of this model.
- Concurrency: requests are sequential, so the check-then-create race and the collisions on the fixed temporary paths are not modelled. Temporary files are never removed, as in the code.
- Timestamps are integers; `datetime.utcnow()` is the parameter `now`, one value per request. `strftime` formatting is dropped.
- `uuid4()` is the `fileId` field of the upload, supplied as an input.
- `print` calls are dropped.
- The `isinstance(user_id, int)` check of `chat` always holds for a typed integer, so it is not modelled.
- Prompts are sent to an uninterpreted generator. Whether the model follows them (a single label, one to three words, the refusal sentence) is not modelled.
- TextOps.Strip: removes the ASCII whitespace `str.strip()` removes (space, `\t` to `\r`, `\x1c` to `\x1f`) but no whitespace above `\x7f`, such as `\x85` or `\xa0`.
- TextOps.Lower: approximates Python's `str.lower()` on ASCII letters only, with no Unicode case folding.
- VectorStore.Store.CreateCollection: requires the name to be absent rather than modelling the store's error for an existing name, because every caller checks first.
- Endpoints.Initialize: states the gate, the failure cases and the row counts only. When it succeeds and what it answers is stated by `InitializeSucceeds`; the exact rows and collections by `Conclude` and the other `Initialize...` lemmas.
- VectorStore.Store.HandleChatEmbeddings: never fails, and neither do the retriever and the splitter. In the code, `create_collection`, each `add_texts` call (one embedding and upsert per chunk), the text splitter and the retriever can raise, and nothing catches them. `upload_and_initialize` then answers 500 with no rows, possibly after creating the collection and writing only the first chunks, and `upload_files_to_chat` aborts mid-batch the same way. Neither these failures nor the partial writes they leave are modelled.
- Endpoints.ChatOutcome: states when a row is saved, not its contents or the error of each case. `ChatGatesBeforeModel`, `ChatModelFailureSavesNothing` and `ChatSavesAnswer` state each case.
