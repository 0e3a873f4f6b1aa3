/** The chat turn of the RAG service (`chat`): a keyword router sends
    sales questions to the sales aggregation; every other message is
    answered by retrieve-then-generate. */
module Chat {
  import opened Wrappers
  import opened Shared
  import opened Strings
  import opened OpenAI
  import opened Store
  import opened Retrieval
  import opened Sales

  /** The collaborators a chat turn calls: the embedding and completion
      endpoints, the similarity arithmetic, and the report text template. */
  datatype Services = Services(
    embed: Embedder,
    similarity: Similarity,
    complete: Completer,
    formatReport: SalesAnswer -> string)

  const SalesKeywords: seq<string> :=
    ["customer", "purchase", "sales", "buy", "product", "amount", "total", "top", "revenue"]
  const ChatFailed := "Failed to process chat message"
  const ContextSeparator := "\n\n"
  const ChatSearchLimit := 3

  /** Some keyword is a substring of the lower-cased message. */
  predicate IsSalesQuery(message: string)
  {
    exists k | 0 <= k < |SalesKeywords| :: Contains(Lower(message), SalesKeywords[k])
  }

  function ProviderRoleOf(role: Role): ProviderRole
  {
    match role
    case User => UserRole
    case Assistant => AssistantRole
  }

  /** The history as (role, content) pairs in order, then the new user turn. */
  function Transcript(history: seq<ChatMessage>, message: string): (t: seq<ProviderMessage>)
    ensures |t| == |history| + 1
    ensures forall i :: 0 <= i < |history| ==>
              t[i].role == ProviderRoleOf(history[i].role) && t[i].content == history[i].content
    ensures t[|history|] == ProviderMessage(UserRole, message)
  {
    seq(|history|, i requires 0 <= i < |history| => ProviderMessage(ProviderRoleOf(history[i].role), history[i].content))
      + [ProviderMessage(UserRole, message)]
  }

  function Contents(results: seq<SearchResult>): seq<string>
  {
    seq(|results|, i requires 0 <= i < |results| => results[i].document.content)
  }

  /** The retrieved contents in rank order, separated by a blank line. */
  function Context(results: seq<SearchResult>): string
  {
    Join(Contents(results), ContextSeparator)
  }

  /** The text of a sales answer: the fixed message when there are no
      records, the report template otherwise. */
  function SalesAnswerText(answer: SalesAnswer, formatReport: SalesAnswer -> string): string
  {
    if answer.NoSalesData? then NoSalesDataMessage else formatReport(answer)
  }

  /** `chat`: one turn; `messageId` stands for `Date.now().toString()`. */
  function Chat(services: Services, documents: seq<StoredDocument>, sales: seq<SaleRecord>,
                message: string, messageId: string, history: seq<ChatMessage> := []): (r: Result<ChatResponse>)
    ensures IsSalesQuery(message) ==> r.Ok? && r.value.sources == []
    ensures r.Err? ==> r.message == ChatFailed
    ensures r.Ok? ==> r.value.messageId == messageId && |r.value.sources| <= ChatSearchLimit
  {
    if IsSalesQuery(message) then
      Ok(ChatResponse(SalesAnswerText(QuerySalesData(message, sales), services.formatReport), [], messageId))
    else
      match Search(documents, services.embed, services.similarity, message, ChatSearchLimit)
      case Err(_) => Err(ChatFailed)
      case Ok(sources) =>
        match GetChatCompletion(services.complete, Transcript(history, message), Some(Context(sources)))
        case Err(_) => Err(ChatFailed)
        case Ok(answer) => Ok(ChatResponse(answer, sources, messageId))
  }

  /** A keyword anywhere in the message, in any letter case and even inside
      a longer word ("stop", "laptop"), routes the message to sales. */
  lemma KeywordAnywhereRoutesToSales(prefix: string, word: string, suffix: string, k: nat)
    requires k < |SalesKeywords| && Lower(word) == SalesKeywords[k]
    ensures IsSalesQuery(prefix + word + suffix)
  {
    var m := prefix + word + suffix;
    assert Lower(m) == Lower(prefix) + Lower(word) + Lower(suffix);
    assert OccursAt(Lower(m), SalesKeywords[k], |prefix|) by {
      assert Lower(m)[|prefix|..|prefix| + |word|] == Lower(word);
    }
    ContainsOccurs(Lower(m), SalesKeywords[k]);
  }

  /** A sales question never fails and cites no sources; with no sales
      records it answers the fixed message, otherwise the rendered sales
      answer. */
  lemma SalesQuestionsSkipRetrieval(services: Services, documents: seq<StoredDocument>, sales: seq<SaleRecord>,
                                    message: string, messageId: string, history: seq<ChatMessage>)
    requires IsSalesQuery(message)
    ensures Chat(services, documents, sales, message, messageId, history).Ok?
    ensures Chat(services, documents, sales, message, messageId, history).value.sources == []
    ensures sales == [] ==> Chat(services, documents, sales, message, messageId, history).value.answer == NoSalesDataMessage
    ensures sales != [] ==>
              Chat(services, documents, sales, message, messageId, history).value.answer
              == services.formatReport(QuerySalesData(message, sales))
    ensures Chat(services, documents, sales, message, messageId, history).value.messageId == messageId
  {
  }

  /** Any other message: the turn fails, with the generic message, exactly
      when the top-3 search fails or the provider fails; otherwise the
      sources are that search's results (so at most 3), and the provider
      receives the system prompt built from their joined contents followed
      by the transcript. */
  lemma OtherQuestionsRetrieveThenGenerate(services: Services, documents: seq<StoredDocument>, sales: seq<SaleRecord>,
                                           message: string, messageId: string, history: seq<ChatMessage>)
    requires !IsSalesQuery(message)
    ensures var r := Chat(services, documents, sales, message, messageId, history);
      var search := Search(documents, services.embed, services.similarity, message, ChatSearchLimit);
      && (r.Err? <==>
            || search.Err?
            || services.complete(ProviderRequest(Transcript(history, message), Some(Context(search.value)))).ProviderError?)
      && (r.Err? ==> r.message == ChatFailed)
      && (r.Ok? ==>
            && r.value.sources == search.value
            && |r.value.sources| <= ChatSearchLimit
            && r.value.messageId == messageId
            && r.value.answer == ReplyText(services.complete(
                 ProviderRequest(Transcript(history, message), Some(Context(search.value)))).content))
  {
    var search := Search(documents, services.embed, services.similarity, message, ChatSearchLimit);
    if search.Ok? {
      SearchReturnsTopK(documents, services.embed, services.similarity, message, ChatSearchLimit);
    }
  }

  /** The context is empty for no sources, the single content for one, and
      grows by a blank line and the next content for each further source. */
  lemma ContextJoinsInRankOrder(results: seq<SearchResult>, next: SearchResult)
    ensures Context([]) == ""
    ensures Context([next]) == next.document.content
    ensures |results| > 0 ==>
              Context(results + [next]) == Context(results) + ContextSeparator + next.document.content
  {
    if |results| > 0 {
      JoinSnoc(Contents(results), next.document.content, ContextSeparator);
      assert Contents(results + [next]) == Contents(results) + [next.document.content];
    }
  }

  lemma {:induction false} JoinSnoc(parts: seq<string>, p: string, sep: string)
    requires |parts| > 0
    ensures Join(parts + [p], sep) == Join(parts, sep) + sep + p
    decreases |parts|
  {
    if |parts| > 1 {
      JoinSnoc(parts[1..], p, sep);
      assert (parts + [p])[1..] == parts[1..] + [p];
    } else {
      assert (parts + [p])[1..] == [p];
    }
  }

  /** When retrieval finds nothing, the provider is asked with the bare
      system prompt followed by the transcript; the turn fails exactly when
      that request fails, and otherwise cites no sources and answers the
      reply text. */
  lemma NoSourcesMeansBarePrompt(services: Services, documents: seq<StoredDocument>, sales: seq<SaleRecord>,
                                 message: string, messageId: string, history: seq<ChatMessage>)
    requires !IsSalesQuery(message)
    requires Search(documents, services.embed, services.similarity, message, ChatSearchLimit) == Ok([])
    ensures var r := Chat(services, documents, sales, message, messageId, history);
      var reply := services.complete([ProviderMessage(SystemRole, BasePrompt)] + Transcript(history, message));
      && (r.Err? <==> reply.ProviderError?)
      && (r.Ok? ==> r.value.sources == [] && r.value.answer == ReplyText(reply.content))
  {
  }
}
