/** rag/llm.py: answering a query from a chat's collection, and the second,
    unvalidated document classifier of that file. */
module Llm {
  import opened Wrappers
  import opened TextOps
  import opened Collaborators
  import opened VectorStore

  const AnswerModel: string := "claude-3-opus-20240229"
  const ClassifyModel: string := "claude-3-haiku-20240307"

  /** The sentence the model is told to answer with when the query does not match the context. */
  const RefusalSentence: string := "Your query does not match the context!"

  const Instructions: string :=
    "You are a knowledgeable assistant. Your responses should only be based on "
    + "the context below. If the query does not match the context, respond with "

  /** The fixed opening of every answer prompt, quoting the refusal sentence. */
  const Preamble: string := Instructions + "'" + RefusalSentence + "'.\n\n"

  const ContextLabel: string := "Context:\n"
  const QueryLabel: string := "\n\nUser Query: "
  const AnswerCue: string := "\n\nAnswer:"

  /** What separates two retrieved chunks in the context. */
  const ChunkSeparator: string := "\n\n"

  /** The retriever of a collection: its texts and the query to the
      `page_content` of the relevant documents, most relevant first. */
  type Retriever = (seq<string>, string) -> seq<string>

  /** The context block: the retrieved texts joined by a blank line, in rank order. */
  function Context(docs: seq<string>): (r: string)
    ensures docs == [] ==> r == ""
    ensures |docs| > 0 ==> |r| == SumLengths(docs) + (|docs| - 1) * |ChunkSeparator|
  {
    JoinLength(docs, ChunkSeparator);
    Join(docs, ChunkSeparator)
  }

  /** The answer prompt: the preamble, the labelled context, the labelled query, the cue. */
  function AnswerPrompt(context: string, query: string): (r: string)
    ensures |r| == |Preamble| + |ContextLabel| + |context| + |QueryLabel| + |query| + |AnswerCue|
    ensures r[..|Preamble|] == Preamble
    ensures r[|Preamble| + |ContextLabel|..|Preamble| + |ContextLabel| + |context|] == context
    ensures r[|r| - |AnswerCue| - |query|..|r| - |AnswerCue|] == query
    ensures r[|r| - |AnswerCue|..] == AnswerCue
  {
    Framed6(Preamble, ContextLabel, context, QueryLabel, query, AnswerCue);
    Preamble + ContextLabel + context + QueryLabel + query + AnswerCue
  }

  function AnswerRequest(docs: seq<string>, query: string): Request {
    Request(AnswerModel, 512, 0.3, AnswerPrompt(Context(docs), query))
  }

  /** `query_llm(chat_name, query)`: retrieve from the chat's collection, ask
      once, and return the first reply block's text, stripped. Reading from a
      collection that does not exist fails, as does the call itself. */
  function QueryLlm(cols: map<string, Collection>, chatName: string, query: string, retrieve: Retriever, llm: Generator)
    : (r: Result<string, ServiceError>)
    ensures chatName !in cols ==> r == Failure(CollectionNotFound)
    ensures chatName in cols ==>
      var reply := llm(AnswerRequest(retrieve(cols[chatName].texts, query), query));
      && (reply.CallFailed? ==> r == Failure(GenerationFailed))
      && (r.Success? <==> FirstText(reply).Some?)
      && (r.Success? ==> r.value == Strip(FirstText(reply).value))
    ensures r.Success? ==> IsStripped(r.value)
  {
    if chatName !in cols then Failure(CollectionNotFound)
    else
      var docs := retrieve(cols[chatName].texts, query);
      var reply := llm(AnswerRequest(docs, query));
      if reply.CallFailed? then Failure(GenerationFailed)
      else match FirstText(reply)
        case None => Failure(UnreadableReply)
        case Some(text) => Success(Strip(text))
  }

  const LabelInstructions: string :=
    "Classify this document into one of the following categories: "
    + "Bill, Insurance, Invoice, Tax Document, Medical Report. "
    + "Respond only with the exact category label, and do not add any punctuation or new categories. "
    + "\n\nDocument:\n"

  const LabelCue: string := "\n\nCategory:"

  /** This file's classification prompt: the instructions, the document, the cue. */
  function ClassifyPrompt(documentText: string): (r: string)
    ensures |r| == |LabelInstructions| + |documentText| + |LabelCue|
    ensures r[..|LabelInstructions|] == LabelInstructions
    ensures r[|LabelInstructions|..|r| - |LabelCue|] == documentText
    ensures r[|r| - |LabelCue|..] == LabelCue
  {
    Framed3(LabelInstructions, documentText, LabelCue);
    LabelInstructions + documentText + LabelCue
  }

  function ClassifyRequest(documentText: string): Request {
    Request(ClassifyModel, 10, 0.2, ClassifyPrompt(documentText))
  }

  /** This file's `classify_document_content`: None when anything raises,
      otherwise the stripped reply, whatever it says. */
  function ClassifyDocumentContent(documentText: string, llm: Generator): (r: Option<string>)
    ensures r.Some? <==> FirstText(llm(ClassifyRequest(documentText))).Some?
    ensures r.Some? ==> r.value == Strip(FirstText(llm(ClassifyRequest(documentText))).value)
    ensures r.Some? ==> IsStripped(r.value)
  {
    match FirstText(llm(ClassifyRequest(documentText)))
    case None => None
    case Some(text) => Some(Strip(text))
  }

  // ---------------------------------------------------------------------------
  // Properties of the prompts and of reply handling

  /** The preamble quotes the refusal sentence verbatim. */
  lemma PreambleQuotesRefusal()
    ensures |Instructions| + 1 + |RefusalSentence| <= |Preamble|
    ensures Preamble[|Instructions|] == '\''
    ensures Preamble[|Instructions| + 1..|Instructions| + 1 + |RefusalSentence|] == RefusalSentence
    ensures Preamble[|Instructions| + 1 + |RefusalSentence|] == '\''
  {
    Framed3(Instructions + "'", RefusalSentence, "'.\n\n");
    assert Preamble[..|Instructions| + 1] == Instructions + "'";
  }

  /** Retrieved text `k` stands in the context after the texts ranked above it,
      each followed by a blank line: the context keeps the retriever's order. */
  lemma ContextKeepsRank(docs: seq<string>, k: nat)
    requires k < |docs|
    ensures PartOffset(docs, ChunkSeparator, k) + |docs[k]| <= |Context(docs)|
    ensures Context(docs)[PartOffset(docs, ChunkSeparator, k)..PartOffset(docs, ChunkSeparator, k) + |docs[k]|] == docs[k]
    ensures k + 1 < |docs| ==>
      PartOffset(docs, ChunkSeparator, k) + |docs[k]| + 2 <= |Context(docs)| &&
      Context(docs)[PartOffset(docs, ChunkSeparator, k) + |docs[k]|..PartOffset(docs, ChunkSeparator, k) + |docs[k]| + 2] == ChunkSeparator
  {
    JoinPartAt(docs, ChunkSeparator, k);
  }

  /** With nothing retrieved the context is empty, yet the prompt, with its
      empty context, is still sent and its reply still returned. */
  lemma NothingRetrievedStillAsks(cols: map<string, Collection>, chatName: string, query: string, retrieve: Retriever, llm: Generator)
    requires chatName in cols && retrieve(cols[chatName].texts, query) == []
    requires FirstText(llm(Request(AnswerModel, 512, 0.3, AnswerPrompt("", query)))).Some?
    ensures QueryLlm(cols, chatName, query, retrieve, llm) ==
      Success(Strip(FirstText(llm(Request(AnswerModel, 512, 0.3, AnswerPrompt("", query)))).value))
  {
    JoinLength([], ChunkSeparator);
  }

  /** The prompt determines the reader's view of the context and the query:
      two prompts are equal exactly when their contexts and queries are. */
  lemma AnswerPromptInjective(c1: string, q1: string, c2: string, q2: string)
    requires |c1| == |c2|
    ensures AnswerPrompt(c1, q1) == AnswerPrompt(c2, q2) <==> c1 == c2 && q1 == q2
  {
    if AnswerPrompt(c1, q1) == AnswerPrompt(c2, q2) {
      var r := AnswerPrompt(c1, q1);
      assert |q1| == |q2|;
      assert c1 == r[|Preamble| + |ContextLabel|..|Preamble| + |ContextLabel| + |c1|] == c2;
      assert q1 == r[|r| - |AnswerCue| - |q1|..|r| - |AnswerCue|] == q2;
    }
  }

  /** The classifier of this file does not validate: any stripped text
      reply, a label of the closed set or not, is returned as it is. */
  lemma ClassifyNotValidated(documentText: string, llm: Generator, text: string)
    requires IsStripped(text)
    requires llm(ClassifyRequest(documentText)) == Replied([TextBlock(text)])
    ensures ClassifyDocumentContent(documentText, llm) == Some(text)
  {
    StripIdentity(text);
  }

  /** Any failure, of the call or of reading the reply, gives None. */
  lemma ClassifyFailureIsNone(documentText: string, llm: Generator)
    requires llm(ClassifyRequest(documentText)).CallFailed? || llm(ClassifyRequest(documentText)) == Replied([])
    ensures ClassifyDocumentContent(documentText, llm) == None
  {
  }
}
