/** rag/chatname.py: naming a new chat from its first document and query. */
module ChatName {
  import opened Wrappers
  import opened TextOps
  import opened Collaborators

  const NamingModel: string := "claude-3-opus-20240229"

  /** What is returned, as a name, when the reply cannot be read. */
  const NamingFailure: string := "Error: Unable to generate chat name."

  const NamingInstructions: string :=
    "Based on the document content and user query below, generate a concise cool chat name that is 1-3 words long. "
    + "Please do not include any explanations, alternatives, or additional responses. Just provide the chat name.\n\n"

  const DocumentLabel: string := "Document Content: "
  const QueryLabel: string := "\nUser Query: "
  const NameCue: string := "\n\nChat Name:"

  /** The naming prompt: the instructions, then the document, then the query,
      and the cue last. */
  function ChatNamePrompt(documentContent: string, userQuery: string): (r: string)
    ensures |r| == |NamingInstructions| + |DocumentLabel| + |documentContent| + |QueryLabel| + |userQuery| + |NameCue|
    ensures r[..|NamingInstructions|] == NamingInstructions
    ensures var at := |NamingInstructions| + |DocumentLabel|;
      r[at..at + |documentContent|] == documentContent
    ensures r[|r| - |NameCue| - |userQuery|..|r| - |NameCue|] == userQuery
    ensures r[|r| - |NameCue|..] == NameCue
  {
    Framed6(NamingInstructions, DocumentLabel, documentContent, QueryLabel, userQuery, NameCue);
    NamingInstructions + DocumentLabel + documentContent + QueryLabel + userQuery + NameCue
  }

  function NamingRequest(documentContent: string, userQuery: string): Request {
    Request(NamingModel, 10, 0.2, ChatNamePrompt(documentContent, userQuery))
  }

  /** `create_chat_name`: the failure of the call itself escapes (it is outside
      the `try`); an unreadable reply gives the literal failure text; otherwise
      the reply's first text, stripped. */
  function CreateChatName(documentContent: string, userQuery: string, llm: Generator): (r: Result<string, ServiceError>)
    ensures r.Failure? <==> llm(NamingRequest(documentContent, userQuery)).CallFailed?
    ensures r.Failure? ==> r.error == GenerationFailed
    ensures r.Success? && FirstText(llm(NamingRequest(documentContent, userQuery))).None? ==> r.value == NamingFailure
    ensures FirstText(llm(NamingRequest(documentContent, userQuery))).Some? ==>
      r == Success(Strip(FirstText(llm(NamingRequest(documentContent, userQuery))).value))
  {
    var reply := llm(NamingRequest(documentContent, userQuery));
    if reply.CallFailed? then Failure(GenerationFailed)
    else match FirstText(reply)
      case None => Success(NamingFailure)
      case Some(text) => Success(Strip(text))
  }

  // ---------------------------------------------------------------------------
  // Properties of naming

  /** The requested length of one to three words is not checked: any readable
      reply, however many words it has, comes back stripped. */
  lemma AnyReadableReplyIsAName(documentContent: string, userQuery: string, llm: Generator, lead: string, text: string, trail: string)
    requires forall k :: 0 <= k < |lead| ==> IsSpace(lead[k])
    requires forall k :: 0 <= k < |trail| ==> IsSpace(trail[k])
    requires text != "" && IsStripped(text)
    requires llm(NamingRequest(documentContent, userQuery)) == Replied([TextBlock(lead + text + trail)])
    ensures CreateChatName(documentContent, userQuery, llm) == Success(text)
  {
    StripPadded(lead, text, trail);
  }

  /** A reply without a readable first block, an empty reply included, names
      the chat with the failure text. */
  lemma UnreadableReplyNamesFailure(documentContent: string, userQuery: string, llm: Generator)
    requires llm(NamingRequest(documentContent, userQuery)) == Replied([]) ||
             (llm(NamingRequest(documentContent, userQuery)).Replied? &&
              |llm(NamingRequest(documentContent, userQuery)).content| > 0 &&
              llm(NamingRequest(documentContent, userQuery)).content[0] == OtherBlock)
    ensures CreateChatName(documentContent, userQuery, llm) == Success(NamingFailure)
  {
  }

  /** Every name produced from a readable reply is stripped; the failure text is too. */
  lemma NamesAreStripped(documentContent: string, userQuery: string, llm: Generator)
    requires CreateChatName(documentContent, userQuery, llm).Success?
    ensures IsStripped(CreateChatName(documentContent, userQuery, llm).value)
  {
    assert NamingFailure[0] == 'E' && NamingFailure[|NamingFailure| - 1] == '.';
  }
}
