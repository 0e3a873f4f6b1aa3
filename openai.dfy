/** The wrapper around the language-model provider: embeddings, chat
    completion with a context-bearing system prompt, and per-document
    embedding with fallback. The provider itself is an oracle. */
module OpenAI {
  import opened Wrappers
  import opened Shared

  /** The embedding endpoint: `None` when the request throws (network or
      provider error, or a response without data). */
  type Embedder = string -> Option<Embedding>

  datatype ProviderRole = SystemRole | UserRole | AssistantRole

  /** A message as sent to the chat-completion endpoint. */
  datatype ProviderMessage = ProviderMessage(role: ProviderRole, content: string)

  /** What the chat-completion endpoint gives back: a thrown error, or a
      response whose `choices[0]?.message?.content` may be missing. */
  datatype Completion = ProviderError | Completed(content: Option<string>)

  type Completer = seq<ProviderMessage> -> Completion

  const EmbeddingFailed := "Failed to generate embedding"
  const ChatCompletionFailed := "Failed to generate chat response"
  const NoResponse := "No response generated"
  const BasePrompt := "You are a helpful assistant."
  const ContextPreamble := BasePrompt
    + " Use the following context to answer the user's question."
    + " If the context doesn't contain relevant information, say so. Context: "

  /** `getEmbedding`: the provider's vector, or the generic embedding error. */
  function GetEmbedding(embed: Embedder, text: string): (r: Result<Embedding>)
    ensures r.Ok? <==> embed(text).Some?
    ensures r.Ok? ==> r.value == embed(text).value
    ensures r.Err? ==> r.message == EmbeddingFailed
  {
    match embed(text)
    case Some(v) => Ok(v)
    case None => Err(EmbeddingFailed)
  }

  /** A context that is absent or empty is falsy and gives the bare prompt. */
  predicate HasContext(context: Option<string>)
  {
    context.Some? && context.value != ""
  }

  /** The system message: the bare prompt without context; with context,
      the instruction preamble followed by the context itself. */
  function SystemPrompt(context: Option<string>): (p: string)
    ensures !HasContext(context) ==> p == BasePrompt
    ensures HasContext(context) ==>
              |p| == |ContextPreamble| + |context.value| &&
              ContextPreamble <= p && p[|ContextPreamble|..] == context.value
    ensures BasePrompt <= p
  {
    assert ContextPreamble[..|BasePrompt|] == BasePrompt;
    if HasContext(context) then ContextPreamble + context.value else BasePrompt
  }

  /** The messages sent to the provider: one system message, then the
      caller's messages unchanged and in order. */
  function ProviderRequest(messages: seq<ProviderMessage>, context: Option<string>): (sent: seq<ProviderMessage>)
    ensures |sent| == |messages| + 1
    ensures sent[0] == ProviderMessage(SystemRole, SystemPrompt(context))
    ensures sent[1..] == messages
  {
    [ProviderMessage(SystemRole, SystemPrompt(context))] + messages
  }

  /** `content || "No response generated"`: missing and empty replies are
      both replaced. */
  function ReplyText(content: Option<string>): (text: string)
    ensures text != ""
    ensures content.Some? && content.value != "" ==> text == content.value
    ensures content.None? || content.value == "" ==> text == NoResponse
  {
    if content.Some? && content.value != "" then content.value else NoResponse
  }

  /** `getChatCompletion`: a provider failure is an error, never a fallback
      text; a reply is its non-empty content or the fixed placeholder. */
  function GetChatCompletion(complete: Completer, messages: seq<ProviderMessage>, context: Option<string>): (r: Result<string>)
    ensures r.Err? <==> complete(ProviderRequest(messages, context)).ProviderError?
    ensures r.Err? ==> r.message == ChatCompletionFailed
    ensures r.Ok? ==> r.value != ""
    ensures r.Ok? ==> r.value == ReplyText(complete(ProviderRequest(messages, context)).content)
  {
    match complete(ProviderRequest(messages, context))
    case ProviderError => Err(ChatCompletionFailed)
    case Completed(content) => Ok(ReplyText(content))
  }

  /** Embed one document, keeping it unchanged when its embedding fails. */
  function EmbedDocument(embed: Embedder, doc: Document): Document
  {
    match GetEmbedding(embed, doc.content)
    case Ok(v) => doc.(embedding := Some(v))
    case Err(_) => doc
  }

  /** `getEmbeddingsForDocuments`: the same documents in the same order;
      each gets a fresh embedding, or stays as it was when embedding fails. */
  function GetEmbeddingsForDocuments(embed: Embedder, documents: seq<Document>): (r: seq<Document>)
    ensures |r| == |documents|
    ensures forall i :: 0 <= i < |r| ==>
              && r[i].id == documents[i].id
              && r[i].content == documents[i].content
              && r[i].metadata == documents[i].metadata
    ensures forall i :: 0 <= i < |r| && embed(documents[i].content).Some? ==>
              r[i].embedding == embed(documents[i].content)
    ensures forall i :: 0 <= i < |r| && embed(documents[i].content).None? ==> r[i] == documents[i]
  {
    seq(|documents|, i requires 0 <= i < |documents| => EmbedDocument(embed, documents[i]))
  }
}
